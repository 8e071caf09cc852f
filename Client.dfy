/**
  The weather client's request side: the query URL it builds, and how it turns
  the outcome of the HTTP call into either the decoded body or a dictionary
  with an "error" message.
*/
module Client {
  import opened Wrappers
  import opened Text
  import opened Json

  /**
    What the single GET request produced: a response with its status code
    and decoded body, a failure of the HTTP library (connection, DNS,
    timeout), or any other exception, each with its message.
  */
  datatype HttpOutcome =
    | Response(status: nat, body: Json)
    | RequestFailed(message: string)
    | UnexpectedFailure(message: string)

  /** The query URL: base, city, key and unit system concatenated with no escaping. */
  function RequestUrl(base: string, city: string, key: string, units: string): string
  {
    base + "?q=" + city + "&appid=" + key + "&units=" + units
  }

  const StatusPrefix := "API request failed with status code: "
  const NetworkPrefix := "Network error: "
  const UnexpectedPrefix := "Unexpected error: "

  /** The dictionary the client returns in place of a body: `{"error": message}`. */
  function ErrorBody(message: string): Json
  {
    JObj(map["error" := JStr(message)])
  }

  /** The status classification of `get_weather_data`. */
  function GetWeatherData(outcome: HttpOutcome): Json
  {
    match outcome
    case Response(status, body) =>
      if status == 200 then body
      else if status == 404 then ErrorBody("City not found")
      else if status == 401 then ErrorBody("Invalid API key")
      else ErrorBody(StatusPrefix + NatToString(status))
    case RequestFailed(message) => ErrorBody(NetworkPrefix + message)
    case UnexpectedFailure(message) => ErrorBody(UnexpectedPrefix + message)
  }

  /** The categories of a failed lookup, with the detail each carries. */
  datatype Failure =
    | NotFound
    | Unauthorized
    | BadStatus(code: nat)
    | NetworkError(detail: string)
    | Unexpected(detail: string)

  /** Which failure an HTTP outcome is, if any: everything but a 200 response fails. */
  function FailureOf(outcome: HttpOutcome): Option<Failure>
  {
    match outcome
    case Response(status, _) =>
      if status == 200 then None
      else if status == 404 then Some(NotFound)
      else if status == 401 then Some(Unauthorized)
      else Some(BadStatus(status))
    case RequestFailed(message) => Some(NetworkError(message))
    case UnexpectedFailure(message) => Some(Unexpected(message))
  }

  /** Reads a failure back from an error message. */
  function ReadMessage(message: string): Option<Failure>
  {
    if message == "City not found" then Some(NotFound)
    else if message == "Invalid API key" then Some(Unauthorized)
    else if StartsWith(message, StatusPrefix) && ParseDecimal(message[|StatusPrefix|..]).Some? then
      Some(BadStatus(ParseDecimal(message[|StatusPrefix|..]).value))
    else if StartsWith(message, NetworkPrefix) then Some(NetworkError(message[|NetworkPrefix|..]))
    else if StartsWith(message, UnexpectedPrefix) then Some(Unexpected(message[|UnexpectedPrefix|..]))
    else None
  }

  /** Reads a failure back from a body of the shape `{"error": message}`. */
  function ReadFailure(data: Json): Option<Failure>
  {
    if data.JObj? && data.fields.Keys == {"error"} && data.fields["error"].JStr? then
      ReadMessage(data.fields["error"].s)
    else None
  }

  /**
    The classification loses nothing: a 200 response passes its body through
    unchanged, and every other outcome becomes an error dictionary from which
    its category and detail (the status code, the library's message) can be
    read back.
  */
  lemma ClassificationRoundTrip(outcome: HttpOutcome)
    ensures FailureOf(outcome).None? ==> outcome.Response? && GetWeatherData(outcome) == outcome.body
    ensures FailureOf(outcome).Some? ==> ReadFailure(GetWeatherData(outcome)) == FailureOf(outcome)
  {
    match outcome
    case Response(status, body) =>
      if status != 200 && status != 404 && status != 401 {
        ReadErrorBody(StatusPrefix + NatToString(status));
        ReadStatusMessage(status);
      } else if status != 200 {
        ReadErrorBody("City not found");
        ReadErrorBody("Invalid API key");
      }
    case RequestFailed(detail) =>
      ReadErrorBody(NetworkPrefix + detail);
      ReadNetworkMessage(detail);
    case UnexpectedFailure(detail) =>
      ReadErrorBody(UnexpectedPrefix + detail);
      ReadUnexpectedMessage(detail);
  }

  /** An error dictionary is read back through its message. */
  lemma ReadErrorBody(message: string)
    ensures ReadFailure(ErrorBody(message)) == ReadMessage(message)
  {
    assert ErrorBody(message).fields.Keys == {"error"};
  }

  /** The status-code message gives the code back, whatever the code. */
  lemma ReadStatusMessage(status: nat)
    ensures ReadMessage(StatusPrefix + NatToString(status)) == Some(BadStatus(status))
  {
    var digits := NatToString(status);
    var message := StatusPrefix + digits;
    assert |message| > |"Invalid API key"|;
    assert StartsWith(message, StatusPrefix);
    assert message[|StatusPrefix|..] == digits;
    NatToStringRoundTrip(status);
  }

  /** The message for a failure of the HTTP library gives the library's message back. */
  lemma ReadNetworkMessage(detail: string)
    ensures ReadMessage(NetworkPrefix + detail) == Some(NetworkError(detail))
  {
    var message := NetworkPrefix + detail;
    assert message[0] == 'N' && message[..|NetworkPrefix|] == NetworkPrefix;
    assert message != "City not found" && message != "Invalid API key" by { assert message[0] == 'N'; }
    assert !StartsWith(message, StatusPrefix) by { assert message[0] != StatusPrefix[0]; }
    assert message[|NetworkPrefix|..] == detail;
  }

  /** The message for any other exception gives that exception's message back. */
  lemma ReadUnexpectedMessage(detail: string)
    ensures ReadMessage(UnexpectedPrefix + detail) == Some(Unexpected(detail))
  {
    var message := UnexpectedPrefix + detail;
    assert message[0] == 'U' && message[..|UnexpectedPrefix|] == UnexpectedPrefix;
    assert message != "City not found" && message != "Invalid API key" by { assert message[0] == 'U'; }
    assert !StartsWith(message, StatusPrefix) by { assert message[0] != StatusPrefix[0]; }
    assert !StartsWith(message, NetworkPrefix) by { assert message[0] != NetworkPrefix[0]; }
    assert message[|UnexpectedPrefix|..] == detail;
  }

  /** The value of the first `name=value` parameter in a list of parameters. */
  function ParamValue(params: seq<string>, name: string): Option<string>
  {
    if params == [] then None
    else if StartsWith(params[0], name + "=") then Some(params[0][|name| + 1..])
    else ParamValue(params[1..], name)
  }

  /**
    The query of a URL: what follows the first '?', up to the first '#'.
    A '#' starts the fragment (sections 3.4 and 3.5 of RFC 3986), which is
    not sent with the request.
  */
  function Query(url: string): string
  {
    Before(After(url, '?'), '#')
  }

  /** The raw value of a query parameter; parameters are separated by '&'. */
  function QueryValue(url: string, name: string): Option<string>
  {
    ParamValue(SplitOn(Query(url), '&'), name)
  }

  /** The parameters of a URL built from a '?'-free base and parameters free of '&' and '#'. */
  lemma QueryParameters(base: string, params: seq<string>)
    requires '?' !in base && |params| >= 1
    requires forall i :: 0 <= i < |params| ==> '&' !in params[i] && '#' !in params[i]
    ensures SplitOn(Query(base + ['?'] + Join(params, '&')), '&') == params
  {
    AfterFirst(base, '?', Join(params, '&'));
    JoinFree(params, '&', '#');
    BeforeFree(Join(params, '&'), '#');
    SplitJoin(params, '&');
  }

  /** The three parameters of a request URL, when none of them contains a separator. */
  lemma RequestUrlQuery(base: string, city: string, key: string, units: string)
    requires '?' !in base && '&' !in city && '&' !in key && '&' !in units
    requires '#' !in city && '#' !in key && '#' !in units
    ensures SplitOn(Query(RequestUrl(base, city, key, units)), '&') == ["q=" + city, "appid=" + key, "units=" + units]
  {
    var q, a, u := "q=" + city, "appid=" + key, "units=" + units;
    var params := [q, a, u];
    assert params[1..] == [a, u] && [a, u][1..] == [u];
    assert Join([a, u], '&') == a + ['&'] + u;
    assert Join(params, '&') == q + ['&'] + Join([a, u], '&');
    assert RequestUrl(base, city, key, units) == base + ['?'] + Join(params, '&');
    QueryParameters(base, params);
  }

  /** Each parameter name finds its own value among the three parameters the client sends. */
  lemma ClientParams(city: string, key: string, units: string)
    ensures var params := ["q=" + city, "appid=" + key, "units=" + units];
            && ParamValue(params, "q") == Some(city)
            && ParamValue(params, "appid") == Some(key)
            && ParamValue(params, "units") == Some(units)
  {
    var q, a, u := "q=" + city, "appid=" + key, "units=" + units;
    var params := [q, a, u];
    assert "q" + "=" == "q=" && "appid" + "=" == "appid=" && "units" + "=" == "units=";
    assert q[..2] == "q=" && q[2..] == city;
    assert a[..6] == "appid=" && a[6..] == key;
    assert u[..6] == "units=" && u[6..] == units;
    FirstCharDiffers(q, "appid=");
    FirstCharDiffers(q, "units=");
    FirstCharDiffers(a, "units=");
    assert params[1..] == [a, u] && params[1..][1..] == [u];
    assert ParamValue(params, "appid") == ParamValue([a, u], "appid") == Some(key);
    assert ParamValue(params, "units") == ParamValue([a, u], "units") == ParamValue([u], "units") == Some(units);
  }

  /**
    When none of the pieces contains a separator, the request carries the
    city, the key and the unit system as its `q`, `appid` and `units`
    parameters.
  */
  lemma RequestUrlParameters(base: string, city: string, key: string, units: string)
    requires '?' !in base && '&' !in city && '&' !in key && '&' !in units
    requires '#' !in city && '#' !in key && '#' !in units
    ensures QueryValue(RequestUrl(base, city, key, units), "q") == Some(city)
    ensures QueryValue(RequestUrl(base, city, key, units), "appid") == Some(key)
    ensures QueryValue(RequestUrl(base, city, key, units), "units") == Some(units)
  {
    RequestUrlQuery(base, city, key, units);
    ClientParams(city, key, units);
  }

  /**
    The city goes into the URL unescaped, so a city name holding '&' ends
    the `q` parameter at the '&', and what follows becomes a parameter of its
    own: a city "Paris&units=imperial" gives a request with two `units`
    parameters, the injected one first and the session's own last. Which of
    the two the server honours is outside the client.
  */
  lemma UnescapedCityAddsParameters(base: string, city: string, choice: string, key: string, units: string)
    requires '?' !in base && '&' !in city && '&' !in choice && '&' !in key && '&' !in units
    requires '#' !in city && '#' !in choice && '#' !in key && '#' !in units
    ensures SplitOn(Query(RequestUrl(base, city + "&units=" + choice, key, units)), '&')
            == ["q=" + city, "units=" + choice, "appid=" + key, "units=" + units]
    ensures QueryValue(RequestUrl(base, city + "&units=" + choice, key, units), "q") == Some(city)
    ensures QueryValue(RequestUrl(base, city + "&units=" + choice, key, units), "units") == Some(choice)
  {
    InjectedQuery(base, city, choice, key, units);
    InjectedParams(city, choice, key, units);
  }

  /** The four parameters of a request whose city carries an injected `units` parameter. */
  lemma InjectedQuery(base: string, city: string, choice: string, key: string, units: string)
    requires '?' !in base && '&' !in city && '&' !in choice && '&' !in key && '&' !in units
    requires '#' !in city && '#' !in choice && '#' !in key && '#' !in units
    ensures SplitOn(Query(RequestUrl(base, city + "&units=" + choice, key, units)), '&')
            == ["q=" + city, "units=" + choice, "appid=" + key, "units=" + units]
  {
    var params := ["q=" + city, "units=" + choice, "appid=" + key, "units=" + units];
    InjectedUrl(base, city, choice, key, units);
    QueryParameters(base, params);
  }

  /** A city carrying an injected `units` parameter joins the URL as a parameter of its own. */
  lemma InjectedUrl(base: string, city: string, choice: string, key: string, units: string)
    ensures RequestUrl(base, city + "&units=" + choice, key, units)
            == base + ['?'] + Join(["q=" + city, "units=" + choice, "appid=" + key, "units=" + units], '&')
  {
    var q, v, a, u := "q=" + city, "units=" + choice, "appid=" + key, "units=" + units;
    var params := [q, v, a, u];
    assert params[1..] == [v, a, u] && [v, a, u][1..] == [a, u] && [a, u][1..] == [u];
    assert Join([a, u], '&') == a + ['&'] + u;
    assert Join([v, a, u], '&') == v + ['&'] + Join([a, u], '&');
    assert Join(params, '&') == q + ['&'] + Join([v, a, u], '&');
  }

  /**
    The city goes into the URL unescaped, so a '#' in it starts the
    fragment: the rest of the city, the key and the unit system stay out of
    the request, which carries only `q`, with the part of the city before
    the '#'. The server then sees no key.
  */
  lemma FragmentDropsParameters(base: string, city: string, rest: string, key: string, units: string)
    requires '?' !in base && '&' !in city && '#' !in city
    ensures SplitOn(Query(RequestUrl(base, city + "#" + rest, key, units)), '&') == ["q=" + city]
    ensures QueryValue(RequestUrl(base, city + "#" + rest, key, units), "q") == Some(city)
    ensures QueryValue(RequestUrl(base, city + "#" + rest, key, units), "appid") == None
    ensures QueryValue(RequestUrl(base, city + "#" + rest, key, units), "units") == None
  {
    var q := "q=" + city;
    var tail := rest + "&appid=" + key + "&units=" + units;
    assert RequestUrl(base, city + "#" + rest, key, units) == base + ['?'] + (q + ['#'] + tail);
    AfterFirst(base, '?', q + ['#'] + tail);
    BeforeFirst(q, '#', tail);
    SplitOnFree(q, '&');
    assert "q" + "=" == "q=" && "appid" + "=" == "appid=" && "units" + "=" == "units=";
    assert q[..2] == "q=" && q[2..] == city;
    FirstCharDiffers(q, "appid=");
    FirstCharDiffers(q, "units=");
    assert [q][1..] == [];
    assert ParamValue([q], "appid") == ParamValue([], "appid") == None;
    assert ParamValue([q], "units") == ParamValue([], "units") == None;
  }

  /** With the injected parameter second, `q` is the city and `units` the injected choice. */
  lemma InjectedParams(city: string, choice: string, key: string, units: string)
    ensures var params := ["q=" + city, "units=" + choice, "appid=" + key, "units=" + units];
            ParamValue(params, "q") == Some(city) && ParamValue(params, "units") == Some(choice)
  {
    var q, v, a, u := "q=" + city, "units=" + choice, "appid=" + key, "units=" + units;
    var params := [q, v, a, u];
    assert "q" + "=" == "q=" && "units" + "=" == "units=";
    assert q[..2] == "q=" && q[2..] == city;
    FirstCharDiffers(q, "units=");
    assert params[1..] == [v, a, u];
    assert v[..6] == "units=" && v[6..] == choice;
    assert ParamValue(params, "units") == ParamValue([v, a, u], "units") == Some(choice);
  }
}
