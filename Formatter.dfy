/**
  `format_weather_data`: turns what the client returned into the report the
  loop prints. The rendered text (colours, emoji, layout) and the timestamp
  are not modelled; a report carries the values that would be shown.
*/
module Formatter {
  import opened Wrappers
  import opened Text
  import opened Json
  import opened Config

  /** The values a successful report shows, in display form where the formatter converts them. */
  datatype WeatherInfo = WeatherInfo(
    city: Json,
    country: Json,
    temperature: Json,
    feelsLike: Json,
    humidity: Json,
    pressure: Json,
    condition: string,
    windSpeed: Json,
    tempUnit: string)

  /** The report returned to the loop: a weather summary or one error line. */
  datatype Report =
    | Weather(info: WeatherInfo)
    | ErrorMessage(detail: Json)   // "Error: <data['error']>"
    | InvalidCity                  // "Please provide a valid city name"
    | MissingData(key: Key)        // "Missing data in API response: <key>"
    | FormatFailure                // "Error formatting weather data: ..."

  /** Either the formatter returned a report, or an exception escaped it. */
  datatype Outcome = Returned(report: Report) | Raised

  /** The fields read from the response, in the order they are read. */
  function RequiredPaths(): seq<seq<Key>>
  {
    [
      [Field("name")],
      [Field("sys"), Field("country")],
      [Field("main"), Field("temp")],
      [Field("main"), Field("feels_like")],
      [Field("main"), Field("humidity")],
      [Field("main"), Field("pressure")],
      [Field("weather"), Position(0), Field("description")]
    ]
  }

  /** The wind-speed placeholder shown when the response carries none. */
  const NotAvailable := JStr("N/A")

  /** The values of all paths, or the first path whose lookup raised and what it raised. */
  datatype Extraction = AllFound(values: seq<Json>) | FailedAt(index: nat, failure: Access)

  /** Reads the paths in order, stopping at the first lookup that raises. */
  function FollowAll(data: Json, paths: seq<seq<Key>>): (r: Extraction)
    ensures r.AllFound? ==> |r.values| == |paths|
  {
    if paths == [] then AllFound([])
    else
      match Follow(data, paths[0])
      case Found(x) =>
        (match FollowAll(data, paths[1..])
         case AllFound(xs) => AllFound([x] + xs)
         case FailedAt(i, f) => FailedAt(i + 1, f))
      case f => FailedAt(0, f)
  }

  /**
    Reading stops at the first path whose lookup raises and reports that
    path and its error; when none raises, every value is the one its path
    leads to.
  */
  lemma {:induction false} FollowAllFacts(data: Json, paths: seq<seq<Key>>)
    ensures var r := FollowAll(data, paths);
      && (r.AllFound? ==>
            |r.values| == |paths| && forall i :: 0 <= i < |paths| ==> Follow(data, paths[i]) == Found(r.values[i]))
      && (r.FailedAt? ==>
            r.index < |paths| && Follow(data, paths[r.index]) == r.failure && !r.failure.Found?
            && forall i :: 0 <= i < r.index ==> Follow(data, paths[i]).Found?)
  {
    if paths != [] {
      FollowAllFacts(data, paths[1..]);
      assert forall i :: 0 < i < |paths| ==> paths[i] == paths[1..][i - 1];
    }
  }

  /** `TEMPERATURE_UNITS.get(units, "°C")`. */
  function TempUnit(units: string): string
  {
    if units in TemperatureUnits then TemperatureUnits[units] else "°C"
  }

  /**
    `data['main'].get('wind_speed', data.get('wind', {}).get('speed', 'N/A'))`.
    Python evaluates the default argument first, so a `wind` entry that is
    not a dictionary raises even when `main.wind_speed` exists.
  */
  function WindSpeed(data: Json): Access
  {
    match Subscript(data, Field("main"))
    case Found(main) =>
      (match Get(data, "wind", JObj(map[]))
       case Found(wind) =>
         (match Get(wind, "speed", NotAvailable)
          case Found(fallback) => Get(main, "wind_speed", fallback)
          case failure => failure)
       case failure => failure)
    case failure => failure
  }

  /** The body of the `try` block: extraction, title-casing and the unit suffix. */
  function Extract(data: Json, units: string): Report
  {
    match FollowAll(data, RequiredPaths())
    case FailedAt(_, KeyError(k)) => MissingData(k)
    case FailedAt(_, _) => FormatFailure
    case AllFound(v) =>
      if !v[6].JStr? then FormatFailure
      else
        match WindSpeed(data)
        case Found(w) => Weather(WeatherInfo(v[0], v[1], v[2], v[3], v[4], v[5], Title(v[6].s), w, TempUnit(units)))
        case _ => FormatFailure
  }

  /**
    `format_weather_data`: the "error" test and `data['error']` sit outside
    the `try`, so on anything but a dictionary they can raise out of it.
  */
  function FormatWeatherData(data: Json, units: string): Outcome
  {
    match Contains(data, "error")
    case None => Raised
    case Some(true) =>
      (match Subscript(data, Field("error"))
       case Found(e) => Returned(ErrorMessage(e))
       case _ => Raised)
    case Some(false) => Returned(Extract(data, units))
  }

  /** A dictionary with an "error" entry yields an error line carrying that entry verbatim, and nothing else does. */
  lemma ErrorPassthrough(data: Json, units: string, detail: Json)
    ensures FormatWeatherData(data, units) == Returned(ErrorMessage(detail))
            <==> data.JObj? && "error" in data.fields && data.fields["error"] == detail
  {
  }

  /**
    An exception escapes the formatter exactly when the body is not a
    dictionary and the "error" test either raises (numbers, booleans, null)
    or succeeds (a list holding "error", a string containing it).
  */
  lemma RaisesOnlyOnNonObjects(data: Json, units: string)
    ensures FormatWeatherData(data, units) == Raised <==> !data.JObj? && Contains(data, "error") != Some(false)
  {
  }

  /**
    The missing key reported is the one of the first required field whose
    lookup hits a missing key, all fields before it having been found.
  */
  lemma FirstMissingKey(data: Json, units: string, k: Key)
    ensures FormatWeatherData(data, units) == Returned(MissingData(k))
            <==> data.JObj? && "error" !in data.fields
                 && exists i :: 0 <= i < |RequiredPaths()| && Follow(data, RequiredPaths()[i]) == KeyError(k)
                                && forall j :: 0 <= j < i ==> Follow(data, RequiredPaths()[j]).Found?
  {
    if data.JObj? && "error" !in data.fields {
      FollowAllFacts(data, RequiredPaths());
    }
  }

  /**
    A report is a weather summary exactly when the body is a dictionary with
    no "error", every required field is found, the description is a string
    and the wind lookup does not raise; it then shows the found values, the
    title-cased description and the suffix of the unit system.
  */
  lemma SuccessfulReport(data: Json, units: string, info: WeatherInfo)
    ensures FormatWeatherData(data, units) == Returned(Weather(info))
            <==> data.JObj? && "error" !in data.fields
                 && Follow(data, RequiredPaths()[0]) == Found(info.city)
                 && Follow(data, RequiredPaths()[1]) == Found(info.country)
                 && Follow(data, RequiredPaths()[2]) == Found(info.temperature)
                 && Follow(data, RequiredPaths()[3]) == Found(info.feelsLike)
                 && Follow(data, RequiredPaths()[4]) == Found(info.humidity)
                 && Follow(data, RequiredPaths()[5]) == Found(info.pressure)
                 && (exists d :: Follow(data, RequiredPaths()[6]) == Found(JStr(d)) && info.condition == Title(d))
                 && WindSpeed(data) == Found(info.windSpeed)
                 && info.tempUnit == TempUnit(units)
  {
    var r := FollowAll(data, RequiredPaths());
    FollowAllFacts(data, RequiredPaths());
    if data.JObj? && "error" !in data.fields && r.FailedAt? {
      assert Follow(data, RequiredPaths()[r.index]) == r.failure;
    }
  }

  /** An empty `weather` list raises IndexError: the generic formatting error, not a missing key. */
  lemma EmptyWeatherList(data: Json, units: string)
    requires data.JObj? && "error" !in data.fields
    requires forall i :: 0 <= i < 6 ==> Follow(data, RequiredPaths()[i]).Found?
    requires "weather" in data.fields && data.fields["weather"] == JArr([])
    ensures FormatWeatherData(data, units) == Returned(FormatFailure)
  {
    var r := FollowAll(data, RequiredPaths());
    FollowAllFacts(data, RequiredPaths());
    assert Follow(data, RequiredPaths()[6]) == OtherError;
    assert r.FailedAt? && r.index == 6;
  }

  /**
    Wind speed comes from `main.wind_speed`, else from `wind.speed`, else is
    "N/A"; it fails only when a `wind` entry exists and is not a dictionary.
  */
  lemma WindSpeedFallback(data: Json)
    requires data.JObj? && "main" in data.fields && data.fields["main"].JObj?
    ensures var main := data.fields["main"].fields;
            var windOk := "wind" !in data.fields || data.fields["wind"].JObj?;
            && (WindSpeed(data) == OtherError <==> !windOk)
            && (windOk && "wind_speed" in main ==> WindSpeed(data) == Found(main["wind_speed"]))
            && (windOk && "wind_speed" !in main && "wind" in data.fields && "speed" in data.fields["wind"].fields
                ==> WindSpeed(data) == Found(data.fields["wind"].fields["speed"]))
            && (windOk && "wind_speed" !in main && ("wind" !in data.fields || "speed" !in data.fields["wind"].fields)
                ==> WindSpeed(data) == Found(NotAvailable))
  {
  }

  /** The suffix of each recognised unit system; any other value would fall back to °C. */
  lemma TempUnitTable(units: string)
    ensures TempUnit("metric") == "°C" && TempUnit("imperial") == "°F" && TempUnit("kelvin") == "K"
    ensures !IsUnitName(units) ==> TempUnit(units) == "°C"
    ensures IsUnitName(units) ==> units in TemperatureUnits
  {
  }

  /** A complete response for London is reported with its values and a title-cased condition. */
  lemma LondonReport()
    ensures FormatWeatherData(LondonResponse(), "metric") == Returned(Weather(WeatherInfo(
      JStr("London"), JStr("GB"), JNum(15.2), JNum(14.8), JNum(72.0), JNum(1012.0),
      "Light Rain", JNum(4.1), "°C")))
  {
    var data := LondonResponse();
    LondonFields();
    LondonMainFields();
    LondonDescription();
    LightRainTitle();
    assert exists d :: Follow(data, RequiredPaths()[6]) == Found(JStr(d)) && "Light Rain" == Title(d);
    TempUnitTable("metric");
    SuccessfulReport(data, "metric", WeatherInfo(
      JStr("London"), JStr("GB"), JNum(15.2), JNum(14.8), JNum(72.0), JNum(1012.0),
      "Light Rain", JNum(4.1), "°C"));
  }

  lemma LondonFields()
    ensures LondonResponse().JObj? && "error" !in LondonResponse().fields
    ensures Follow(LondonResponse(), RequiredPaths()[0]) == Found(JStr("London"))
    ensures Follow(LondonResponse(), RequiredPaths()[1]) == Found(JStr("GB"))
    ensures WindSpeed(LondonResponse()) == Found(JNum(4.1))
  {
    var m := LondonResponse().fields;
    assert "name" in m && m["name"] == JStr("London");
    assert "sys" in m && m["sys"] == JObj(map["country" := JStr("GB")]);
    assert RequiredPaths()[1][1..] == [Field("country")];
  }

  lemma LondonMainFields()
    ensures Follow(LondonResponse(), RequiredPaths()[2]) == Found(JNum(15.2))
    ensures Follow(LondonResponse(), RequiredPaths()[3]) == Found(JNum(14.8))
    ensures Follow(LondonResponse(), RequiredPaths()[4]) == Found(JNum(72.0))
    ensures Follow(LondonResponse(), RequiredPaths()[5]) == Found(JNum(1012.0))
  {
    var m := LondonResponse().fields;
    assert "main" in m && m["main"] == LondonMain();
    assert RequiredPaths()[2][1..] == [Field("temp")];
    assert RequiredPaths()[3][1..] == [Field("feels_like")];
    assert RequiredPaths()[4][1..] == [Field("humidity")];
    assert RequiredPaths()[5][1..] == [Field("pressure")];
  }

  lemma LondonDescription()
    ensures Follow(LondonResponse(), RequiredPaths()[6]) == Found(JStr("light rain"))
  {
    var m := LondonResponse().fields;
    assert "weather" in m && m["weather"] == JArr([JObj(map["description" := JStr("light rain")])]);
    var path := RequiredPaths()[6];
    assert path == [Field("weather"), Position(0), Field("description")];
    assert path[1..] == [Position(0), Field("description")];
    assert path[1..][1..] == [Field("description")];
  }

  lemma LightRainTitle()
    ensures Title("light rain") == "Light Rain"
  {
    LightRainPieces("light", " rain");
    assert "light" + " rain" == "light rain";
  }

  lemma LightRainPieces(light: string, rain: string)
    requires light == "light" && rain == " rain"
    ensures Title(light + rain) == "Light Rain"
  {
    TitleAfterAppend(light, rain, false);
    assert TitleAfter("t", true) == "t";
    assert TitleAfter("ht", true) == "ht";
    assert TitleAfter("ght", true) == "ght";
    assert TitleAfter("ight", true) == "ight";
    assert TitleAfter("light", false) == "Light";
    assert TitleAfter("n", true) == "n";
    assert TitleAfter("in", true) == "in";
    assert TitleAfter("ain", true) == "ain";
    assert TitleAfter("rain", false) == "Rain";
    assert TitleAfter(" rain", true) == " Rain";
  }

  function LondonMain(): Json
  {
    JObj(map["temp" := JNum(15.2), "feels_like" := JNum(14.8), "humidity" := JNum(72.0), "pressure" := JNum(1012.0)])
  }

  /** A typical 200 body of the current-weather endpoint. */
  function LondonResponse(): Json
  {
    JObj(map[
      "name" := JStr("London"),
      "sys" := JObj(map["country" := JStr("GB")]),
      "main" := LondonMain(),
      "weather" := JArr([JObj(map["description" := JStr("light rain")])]),
      "wind" := JObj(map["speed" := JNum(4.1)])])
  }
}
