/**
  The interactive part of the client: the `WeatherApp` object with its
  mutable unit preference, the classification of one input line into a
  command, `get_weather_for_city`, and the read-dispatch loop of `main`.
*/
module App {
  import opened Wrappers
  import opened Text
  import opened Config
  import opened Client
  import opened Formatter

  /** What one input line asks for. */
  datatype Command =
    | Blank                      // nothing typed: prompt again
    | Quit                       // quit, exit or q
    | Help                       // help
    | ChangeUnits(value: string) // units <value>
    | Lookup(city: string)       // anything else: a city name

  predicate IsQuitWord(s: string)
  {
    s == "quit" || s == "exit" || s == "q"
  }

  /** The dispatch in `main`, applied to the raw line (it is stripped first). */
  function ParseCommand(line: string): Command
  {
    var input := Strip(line);
    var lowered := Lower(input);
    if input == [] then Blank
    else if IsQuitWord(lowered) then Quit
    else if lowered == "help" then Help
    else if StartsWith(lowered, "units ") then ChangeUnits(After(input, ' '))
    else Lookup(input)
  }

  /**
    The classification table: a blank line does nothing, the quit words and
    "help" are matched case-insensitively on the whole stripped line, a line
    whose lower-cased form starts with "units " is a units command, and every
    other line is a city name.
  */
  lemma DispatchTable(line: string)
    ensures ParseCommand(line) == Blank <==> IsBlank(line)
    ensures ParseCommand(line) == Quit <==> IsQuitWord(Lower(Strip(line)))
    ensures ParseCommand(line) == Help <==> Lower(Strip(line)) == "help"
    ensures ParseCommand(line).ChangeUnits? <==> StartsWith(Lower(Strip(line)), "units ")
    ensures ParseCommand(line).Lookup? <==>
      !IsBlank(line) && !IsQuitWord(Lower(Strip(line))) && Lower(Strip(line)) != "help"
      && !StartsWith(Lower(Strip(line)), "units ")
  {
    StripFacts(line);
  }

  /**
    A units command passes on everything after "units ", untrimmed: the
    text of the stripped line from its seventh character on.
  */
  lemma UnitsArgument(line: string)
    requires ParseCommand(line).ChangeUnits?
    ensures |Strip(line)| >= 6 && ParseCommand(line).value == Strip(line)[6..]
  {
    var input := Strip(line);
    var lowered := Lower(input);
    assert lowered[..6] == "units ";
    forall i | 0 <= i < 5
      ensures input[i] != ' '
    {
      assert LowerChar(input[i]) == lowered[i] == "units "[i];
    }
    assert lowered[5] == "units "[5] == ' ';
    assert LowerChar(input[5]) == ' ';
    assert input == input[..5] + [' '] + input[6..];
    AfterFirst(input[..5], ' ', input[6..]);
  }

  /**
    A city name handed to the lookup is the whole stripped line: it is not
    blank and stripping it again changes nothing, so the blank-name guard of
    `get_weather_for_city` never fires from the loop.
  */
  lemma LookupNameIsStripped(line: string)
    requires ParseCommand(line).Lookup?
    ensures ParseCommand(line).city == Strip(line)
    ensures !IsBlank(ParseCommand(line).city) && Strip(ParseCommand(line).city) == ParseCommand(line).city
  {
    var input := Strip(line);
    assert input != [];
    assert ParseCommand(line) == Lookup(input);
    StripIdempotent(line);
    assert Strip(input) == input;
    StripFacts(input);
  }

  /**
    "units " followed by a value that does not end in whitespace is a units
    command passing that value as typed, whatever its case.
  */
  lemma UnitsCommandParsed(value: string)
    requires value != [] && !IsSpace(value[|value| - 1])
    ensures ParseCommand("units " + value) == ChangeUnits(value)
  {
    var line := "units " + value;
    UnitsLineStripped(value);
    UnitsPrefixLowered(line);
    assert ParseCommand(line).ChangeUnits?;
    UnitsArgument(line);
    assert line[6..] == value;
  }

  /** "units " followed by a value not ending in whitespace survives stripping. */
  lemma UnitsLineStripped(value: string)
    requires value != [] && !IsSpace(value[|value| - 1])
    ensures Strip("units " + value) == "units " + value
  {
    StripUnchanged("units " + value);
  }

  /** Lower-casing keeps a leading "units ". */
  lemma UnitsPrefixLowered(line: string)
    requires |line| >= 6 && line[..6] == "units "
    ensures StartsWith(Lower(line), "units ")
  {
    forall i | 0 <= i < 6
      ensures Lower(line)[i] == "units "[i]
    {
      assert line[i] == line[..6][i];
    }
  }

  /** A second space after "units" is passed on with the value, so no unit system is recognised. */
  lemma ExtraSpaceRejected(value: string)
    requires value != [] && !IsSpace(value[|value| - 1])
    ensures ParseCommand("units " + (" " + value)) == ChangeUnits(" " + value) && !IsUnitName(Lower(" " + value))
  {
    UnitsCommandParsed(" " + value);
    LeadingSpaceNotUnit(" " + value);
  }

  lemma LeadingSpaceNotUnit(value: string)
    requires value != [] && value[0] == ' '
    ensures !IsUnitName(Lower(value))
  {
    assert Lower(value)[0] == ' ';
  }

  /** A bare "units" has lost its trailing space to stripping, so it is looked up as a city. */
  lemma BareUnitsIsCity()
    ensures ParseCommand("units ") == Lookup("units")
  {
    assert TrimLeft("units ") == "units ";
    assert TrimRight("units ") == "units";
    assert Lower("units") == "units";
  }

  /** The result of `get_weather_for_city`: the URL requested, if any, and what the formatter produced. */
  datatype CityLookup = CityLookup(request: Option<string>, outcome: Outcome)

  /** `get_weather_for_city`: the blank-name guard, then one request for the stripped name and its formatted result. */
  function GetWeatherForCity(base: string, key: string, units: string, city: string, net: string -> HttpOutcome): CityLookup
  {
    if Strip(city) == [] then CityLookup(None, Returned(InvalidCity))
    else
      var url := RequestUrl(base, Strip(city), key, units);
      CityLookup(Some(url), FormatWeatherData(GetWeatherData(net(url)), units))
  }

  /**
    An empty or whitespace-only name is answered with the "valid city name"
    error and no request; any other name makes exactly one request, for the
    stripped name in the current unit system, and shows what the formatter
    makes of the classified response.
  */
  lemma BlankCityGuard(base: string, key: string, units: string, city: string, net: string -> HttpOutcome)
    ensures var r := GetWeatherForCity(base, key, units, city, net);
            && (r.request.None? <==> IsBlank(city))
            && (r.request.None? ==> r.outcome == Returned(InvalidCity))
            && (r.request.Some? ==> r.request.value == RequestUrl(base, Strip(city), key, units)
                                    && r.outcome == FormatWeatherData(GetWeatherData(net(r.request.value)), units))
  {
    StripFacts(city);
  }

  /**
    The one request of a lookup carries the stripped name as `q`, the key as
    `appid` and the session's unit system as `units`, provided none of them
    contains '&' or '#'.
  */
  lemma LookupRequest(base: string, key: string, units: string, city: string, net: string -> HttpOutcome)
    requires !IsBlank(city) && '?' !in base && '&' !in city && '&' !in key && '&' !in units
    requires '#' !in city && '#' !in key && '#' !in units
    ensures var r := GetWeatherForCity(base, key, units, city, net);
            && r.request.Some?
            && QueryValue(r.request.value, "q") == Some(Strip(city))
            && QueryValue(r.request.value, "appid") == Some(key)
            && QueryValue(r.request.value, "units") == Some(units)
  {
    StripFacts(city);
    var s := Strip(city);
    var k := StripStart(city);
    assert forall i :: 0 <= i < |s| ==> s[i] == city[k + i];
    RequestUrlParameters(base, s, key, units);
  }

  /** The display name confirmed after a successful `units` command. */
  function DisplayName(units: string): string
  {
    if units == "metric" then "Celsius" else if units == "imperial" then "Fahrenheit" else "Kelvin"
  }

  /** The confirmation names the unit system: distinct systems get distinct names. */
  lemma DisplayNameDistinct(a: string, b: string)
    requires IsUnitName(a) && IsUnitName(b)
    ensures DisplayName(a) == DisplayName(b) <==> a == b
  {
  }

  /** What one iteration of the loop shows the user. */
  datatype Output =
    | Farewell
    | HelpText
    | UnitsConfirmed(unitName: string)
    | UnitsRejected
    | Fetching(city: string)
    | Printed(report: Report)
    | UnexpectedError

  /** The lines a city lookup prints: the progress line when a request is made, then the report. */
  function LookupOutputs(city: string, r: CityLookup): seq<Output>
  {
    (if r.request.Some? then [Fetching(city)] else [])
    + (match r.outcome
       case Returned(report) => [Printed(report)]
       case Raised => [UnexpectedError])
  }

  /** The session's unit preference and its single mutable field. */
  class WeatherApp {
    const apiKey: string
    const baseUrl: string
    var units: string

    /** The object invariant: a key is configured and the preference is a recognised unit system. */
    ghost predicate Valid()
      reads this
    {
      apiKey != [] && IsUnitName(units)
    }

    /** A session starts in metric units; a missing or empty key ends the program before this. */
    constructor (apiKey: string)
      requires apiKey != []
      ensures Valid()
      ensures this.apiKey == apiKey && baseUrl == BaseUrl && units == DefaultUnits
    {
      this.apiKey := apiKey;
      baseUrl := BaseUrl;
      units := DefaultUnits;
    }

    /**
      `set_units`: a value is accepted exactly when its lower-cased form is a
      recognised unit system, and that lower-cased form is stored; any other
      value leaves the preference as it was.
    */
    method SetUnits(value: string) returns (reply: Output)
      modifies this`units
      ensures IsUnitName(Lower(value)) ==> units == Lower(value) && reply == UnitsConfirmed(DisplayName(units))
      ensures !IsUnitName(Lower(value)) ==> units == old(units) && reply == UnitsRejected
      ensures old(Valid()) ==> Valid()
    {
      var lowered := Lower(value);
      if lowered == "metric" || lowered == "imperial" || lowered == "kelvin" {
        units := lowered;
        reply := UnitsConfirmed(DisplayName(units));
      } else {
        reply := UnitsRejected;
      }
    }
  }

  /**
    The start of `main`: without a configured key (unset or empty) the
    constructor exits and `main` returns before the loop; otherwise a
    session starts in metric units.
  */
  method StartApp(key: Option<string>) returns (app: WeatherApp?)
    ensures app == null <==> key.None? || key.value == []
    ensures app != null ==> fresh(app) && app.Valid() && app.apiKey == key.value
                            && app.baseUrl == BaseUrl && app.units == DefaultUnits
  {
    if key.None? || key.value == [] {
      app := null;
    } else {
      app := new WeatherApp(key.value);
    }
  }

  /** One event the loop reads: a line, the end of the input, or a keyboard interrupt. */
  datatype Event = Line(text: string) | EndOfInput | Interrupt

  datatype LoopState = Running | Terminated

  /** What one iteration shows, which URLs it requests, and the unit preference and loop state after it. */
  datatype StepResult = StepResult(outputs: seq<Output>, requests: seq<string>, units: string, state: LoopState)

  /**
    One iteration of the loop. The end of the input raises EOFError, which
    the loop's catch-all reports before prompting again.
  */
  function Step(base: string, key: string, units: string, event: Event, net: string -> HttpOutcome): StepResult
  {
    match event
    case EndOfInput => StepResult([UnexpectedError], [], units, Running)
    case Interrupt => StepResult([Farewell], [], units, Terminated)
    case Line(text) =>
      match ParseCommand(text)
      case Blank => StepResult([], [], units, Running)
      case Quit => StepResult([Farewell], [], units, Terminated)
      case Help => StepResult([HelpText], [], units, Running)
      case ChangeUnits(value) =>
        if IsUnitName(Lower(value)) then StepResult([UnitsConfirmed(DisplayName(Lower(value)))], [], Lower(value), Running)
        else StepResult([UnitsRejected], [], units, Running)
      case Lookup(city) =>
        var r := GetWeatherForCity(base, key, units, city, net);
        StepResult(LookupOutputs(city, r), if r.request.Some? then [r.request.value] else [], units, Running)
  }

  /** The events that end the session: an interrupt or a quit word. */
  predicate EndsSession(event: Event)
  {
    event == Interrupt || (event.Line? && ParseCommand(event.text) == Quit)
  }

  predicate IsUnitsCommand(event: Event)
  {
    event.Line? && ParseCommand(event.text).ChangeUnits?
  }

  /** What a run of the loop over some events shows and requests, where it leaves the preference, and how many events it read. */
  datatype SessionResult = SessionResult(outputs: seq<Output>, requests: seq<string>, units: string, state: LoopState, consumed: nat)

  /** The loop of `main` over a sequence of events: it stops reading after the first event that ends the session. */
  function Session(base: string, key: string, units: string, events: seq<Event>, net: string -> HttpOutcome): SessionResult
    decreases |events|
  {
    if events == [] then SessionResult([], [], units, Running, 0)
    else
      var step := Step(base, key, units, events[0], net);
      if step.state == Terminated then SessionResult(step.outputs, step.requests, step.units, Terminated, 1)
      else
        var rest := Session(base, key, step.units, events[1..], net);
        SessionResult(step.outputs + rest.outputs, step.requests + rest.requests, rest.units, rest.state, rest.consumed + 1)
  }

  /**
    One iteration ends the session exactly on an interrupt or a quit word,
    keeps the preference a recognised unit system, and changes it only on a
    units command.
  */
  lemma StepFacts(base: string, key: string, units: string, event: Event, net: string -> HttpOutcome)
    ensures Step(base, key, units, event, net).state == Terminated <==> EndsSession(event)
    ensures IsUnitName(units) ==> IsUnitName(Step(base, key, units, event, net).units)
    ensures !IsUnitsCommand(event) ==> Step(base, key, units, event, net).units == units
  {
    match event
    case EndOfInput =>
    case Interrupt =>
    case Line(text) =>
      match ParseCommand(text)
      case Blank =>
      case Quit =>
      case Help =>
      case ChangeUnits(value) =>
      case Lookup(city) =>
        var r := GetWeatherForCity(base, key, units, city, net);
        assert Step(base, key, units, event, net).units == units;
  }

  /** Only a recognised unit system is ever stored: the invariant holds after any run of the loop. */
  lemma {:induction false} SessionKeepsUnitsValid(base: string, key: string, units: string, events: seq<Event>, net: string -> HttpOutcome)
    requires IsUnitName(units)
    ensures IsUnitName(Session(base, key, units, events, net).units)
    decreases |events|
  {
    if events != [] {
      var step := Step(base, key, units, events[0], net);
      StepFacts(base, key, units, events[0], net);
      if step.state == Running {
        SessionKeepsUnitsValid(base, key, step.units, events[1..], net);
      }
    }
  }

  /**
    The loop reads events up to and including the first interrupt or quit
    word and no further; with none among the events it reads them all and is
    still running.
  */
  lemma {:induction false} SessionStopsAtFirstEnd(base: string, key: string, units: string, events: seq<Event>, net: string -> HttpOutcome)
    ensures var r := Session(base, key, units, events, net);
            && r.consumed <= |events|
            && (r.state == Running ==> r.consumed == |events|)
            && (r.state == Terminated ==> 0 < r.consumed && EndsSession(events[r.consumed - 1]))
            && forall i :: 0 <= i < r.consumed && (i < r.consumed - 1 || r.state == Running) ==> !EndsSession(events[i])
    decreases |events|
  {
    if events != [] {
      var step := Step(base, key, units, events[0], net);
      StepFacts(base, key, units, events[0], net);
      if step.state == Running {
        var tail := events[1..];
        SessionStopsAtFirstEnd(base, key, step.units, tail, net);
        var rest := Session(base, key, step.units, tail, net);
        assert Session(base, key, units, events, net).consumed == rest.consumed + 1;
        assert Session(base, key, units, events, net).state == rest.state;
        assert forall i :: 0 < i <= rest.consumed ==> events[i] == tail[i - 1];
      }
    }
  }

  /** The loop ends exactly when some event is an interrupt or a quit word. */
  lemma SessionEndsIff(base: string, key: string, units: string, events: seq<Event>, net: string -> HttpOutcome)
    ensures Session(base, key, units, events, net).state == Terminated
            <==> exists i :: 0 <= i < |events| && EndsSession(events[i])
  {
    SessionStopsAtFirstEnd(base, key, units, events, net);
    var r := Session(base, key, units, events, net);
    if r.state == Terminated {
      assert EndsSession(events[r.consumed - 1]);
    }
  }

  /**
    At the end of the input the loop reports the error and prompts again: a
    run of end-of-input events never ends the session and prints one error
    each.
  */
  lemma {:induction false} EndOfInputNeverEnds(base: string, key: string, units: string, n: nat, net: string -> HttpOutcome)
    ensures var r := Session(base, key, units, seq(n, _ => EndOfInput), net);
            r.state == Running && r.units == units && r.requests == [] && r.outputs == seq(n, _ => UnexpectedError)
  {
    if n > 0 {
      EndOfInputNeverEnds(base, key, units, n - 1, net);
      assert seq(n, _ => EndOfInput)[1..] == seq(n - 1, _ => EndOfInput);
      assert [UnexpectedError] + seq(n - 1, _ => UnexpectedError) == seq(n, _ => UnexpectedError);
    }
  }

  /** Only a units command changes the preference: without one, a run of the loop leaves it unchanged. */
  lemma {:induction false} UnitsChangeOnlyByCommand(base: string, key: string, units: string, events: seq<Event>, net: string -> HttpOutcome)
    requires forall i :: 0 <= i < |events| ==> !IsUnitsCommand(events[i])
    ensures Session(base, key, units, events, net).units == units
    decreases |events|
  {
    if events != [] {
      assert !IsUnitsCommand(events[0]);
      var step := Step(base, key, units, events[0], net);
      StepFacts(base, key, units, events[0], net);
      if step.state == Running {
        assert forall i :: 0 <= i < |events[1..]| ==> events[1..][i] == events[i + 1];
        UnitsChangeOnlyByCommand(base, key, units, events[1..], net);
      }
    }
  }

  /** A blank line changes nothing, shows nothing and requests nothing. */
  lemma BlankLineDoesNothing(base: string, key: string, units: string, text: string, net: string -> HttpOutcome)
    requires IsBlank(text)
    ensures Step(base, key, units, Line(text), net) == StepResult([], [], units, Running)
  {
    DispatchTable(text);
  }

  /**
    Every city line makes exactly one request, for the stripped line, in the
    session's current unit system.
  */
  lemma CityLineRequest(base: string, key: string, units: string, text: string, net: string -> HttpOutcome)
    requires ParseCommand(text).Lookup?
    ensures var step := Step(base, key, units, Line(text), net);
            step.requests == [RequestUrl(base, Strip(text), key, units)] && step.units == units && step.state == Running
  {
    LookupNameIsStripped(text);
    var city := Strip(text);
    BlankCityGuard(base, key, units, city, net);
  }

  /**
    A city line shows the progress line for the stripped name, then either
    the formatted report or, when the formatter raised, the loop's
    catch-all error line.
  */
  lemma CityLineOutputs(base: string, key: string, units: string, text: string, net: string -> HttpOutcome)
    requires ParseCommand(text).Lookup?
    ensures var step := Step(base, key, units, Line(text), net);
            var r := GetWeatherForCity(base, key, units, Strip(text), net);
            |step.outputs| == 2 && step.outputs[0] == Fetching(Strip(text))
            && (step.outputs[1] == UnexpectedError <==> r.outcome == Raised)
            && (r.outcome.Returned? ==> step.outputs[1] == Printed(r.outcome.report))
  {
    LookupNameIsStripped(text);
    BlankCityGuard(base, key, units, Strip(text), net);
  }

  /**
    A successful units command followed by a city line: the city is requested
    in the newly chosen unit system.
  */
  lemma UnitsThenLookup(base: string, key: string, units: string, choice: string, line: string, net: string -> HttpOutcome)
    requires choice != [] && !IsSpace(choice[|choice| - 1]) && IsUnitName(Lower(choice))
    requires ParseCommand(line).Lookup?
    ensures var r := Session(base, key, units, [Line("units " + choice), Line(line)], net);
            |r.outputs| > 0 && r.outputs[0] == UnitsConfirmed(DisplayName(Lower(choice)))
            && r.requests == [RequestUrl(base, Strip(line), key, Lower(choice))]
            && r.units == Lower(choice) && r.state == Running
  {
    UnitsCommandParsed(choice);
    var first := Step(base, key, units, Line("units " + choice), net);
    assert first == StepResult([UnitsConfirmed(DisplayName(Lower(choice)))], [], Lower(choice), Running);
    var events := [Line("units " + choice), Line(line)];
    assert events[1..] == [Line(line)];
    SingleLookup(base, key, Lower(choice), line, net);
  }

  /** A session of one city line requests that city and keeps running in the same unit system. */
  lemma SingleLookup(base: string, key: string, units: string, line: string, net: string -> HttpOutcome)
    requires ParseCommand(line).Lookup?
    ensures var r := Session(base, key, units, [Line(line)], net);
            r.requests == [RequestUrl(base, Strip(line), key, units)] && r.units == units && r.state == Running
  {
    CityLineRequest(base, key, units, line, net);
    assert [Line(line)][1..] == [];
  }

  /** The definition of a session read one event at a time. */
  lemma SessionUnfold(base: string, key: string, units: string, events: seq<Event>, net: string -> HttpOutcome)
    requires events != []
    ensures var step := Step(base, key, units, events[0], net);
            var r := Session(base, key, units, events, net);
            && (step.state == Terminated ==> r == SessionResult(step.outputs, step.requests, step.units, Terminated, 1))
            && (step.state == Running ==>
                  var rest := Session(base, key, step.units, events[1..], net);
                  r == SessionResult(step.outputs + rest.outputs, step.requests + rest.requests, rest.units, rest.state, rest.consumed + 1))
  {
  }

  /** Appending one step's outputs and requests to what the loop has gathered so far. */
  lemma Accumulate(whole: SessionResult, outputs: seq<Output>, requests: seq<string>, i: nat,
                   shown: seq<Output>, sent: seq<string>, before: SessionResult, after: SessionResult)
    requires whole == SessionResult(outputs + before.outputs, requests + before.requests, before.units, before.state, i + before.consumed)
    requires before == SessionResult(shown + after.outputs, sent + after.requests, after.units, after.state, after.consumed + 1)
    ensures whole == SessionResult((outputs + shown) + after.outputs, (requests + sent) + after.requests,
                                   after.units, after.state, (i + 1) + after.consumed)
  {
  }

  /**
    The body of the loop of `main` for one event: what it shows, which URL it
    requests, and whether the loop goes on; a units command updates the
    app's preference through `set_units`.
  */
  method Dispatch(app: WeatherApp, event: Event, net: string -> HttpOutcome)
      returns (shown: seq<Output>, sent: seq<string>, state: LoopState)
    requires app.Valid()
    modifies app`units
    ensures app.Valid()
    ensures StepResult(shown, sent, app.units, state) == Step(app.baseUrl, app.apiKey, old(app.units), event, net)
  {
    shown, sent, state := [], [], Running;
    match event {
    case EndOfInput =>
      shown := [UnexpectedError];
    case Interrupt =>
      shown := [Farewell];
      state := Terminated;
    case Line(text) =>
      match ParseCommand(text) {
      case Blank =>
      case Quit =>
        shown := [Farewell];
        state := Terminated;
      case Help =>
        shown := [HelpText];
      case ChangeUnits(value) =>
        var reply := app.SetUnits(value);
        shown := [reply];
      case Lookup(city) =>
        var r := GetWeatherForCity(app.baseUrl, app.apiKey, app.units, city, net);
        shown := LookupOutputs(city, r);
        if r.request.Some? {
          sent := [r.request.value];
        }
      }
    }
  }

  /**
    The loop of `main` run over a sequence of events against a network that
    answers each URL; it changes only the app's unit preference, as the
    specification function `Session` describes.
  */
  method Run(app: WeatherApp, events: seq<Event>, net: string -> HttpOutcome)
      returns (outputs: seq<Output>, requests: seq<string>, state: LoopState, consumed: nat)
    requires app.Valid()
    modifies app
    ensures app.Valid()
    ensures SessionResult(outputs, requests, app.units, state, consumed)
            == Session(app.baseUrl, app.apiKey, old(app.units), events, net)
  {
    ghost var whole := Session(app.baseUrl, app.apiKey, app.units, events, net);
    outputs, requests, state := [], [], Running;
    var i := 0;
    while i < |events| && state == Running
      invariant 0 <= i <= |events|
      invariant app.Valid()
      invariant state == Running ==>
        var rest := Session(app.baseUrl, app.apiKey, app.units, events[i..], net);
        whole == SessionResult(outputs + rest.outputs, requests + rest.requests, rest.units, rest.state, i + rest.consumed)
      invariant state == Terminated ==> whole == SessionResult(outputs, requests, app.units, Terminated, i)
      decreases |events| - i
    {
      ghost var before := Session(app.baseUrl, app.apiKey, app.units, events[i..], net);
      ghost var step := Step(app.baseUrl, app.apiKey, app.units, events[i], net);
      SessionUnfold(app.baseUrl, app.apiKey, app.units, events[i..], net);
      assert events[i..][0] == events[i] && events[i..][1..] == events[i + 1..];
      var shown, sent;
      shown, sent, state := Dispatch(app, events[i], net);
      assert step == StepResult(shown, sent, app.units, state);
      if state == Running {
        ghost var after := Session(app.baseUrl, app.apiKey, app.units, events[i + 1..], net);
        assert before == SessionResult(shown + after.outputs, sent + after.requests, after.units, after.state, after.consumed + 1);
        Accumulate(whole, outputs, requests, i, shown, sent, before, after);
      } else {
        assert before == SessionResult(shown, sent, app.units, Terminated, 1);
      }
      outputs := outputs + shown;
      requests := requests + sent;
      i := i + 1;
    }
    consumed := i;
    if state == Running {
      assert events[i..] == [];
    }
  }
}
