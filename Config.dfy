/** The constants of the client's configuration and the unit systems it recognises. */
module Config {
  /** The current-weather endpoint every request goes to. */
  const BaseUrl := "http://api.openweathermap.org/data/2.5/weather"

  /** The unit system a new session starts with. */
  const DefaultUnits := "metric"

  /** The temperature suffix shown for each unit system. */
  const TemperatureUnits: map<string, string> := map["metric" := "°C", "imperial" := "°F", "kelvin" := "K"]

  /** The three values the session's unit preference may hold. */
  predicate IsUnitName(s: string)
  {
    s == "metric" || s == "imperial" || s == "kelvin"
  }
}
