/**
 * The reshaping step of loadForecasts (app.js): after the point lookup and
 * the two forecast fetches, the hourly periods are cut to the first 24 and
 * the daily periods to the first 10.
 */
module Forecast {
  import opened Wrappers

  /** The most hourly periods the widget keeps. */
  const HourlyLimit: nat := 24
  /** The most daily periods the widget keeps. */
  const DailyLimit: nat := 10

  /** The fields of a forecast period that the renderers read. */
  datatype Period = Period(
    name: string,
    startTime: string,
    temperature: int,
    temperatureUnit: string,
    shortForecast: string,
    detailedForecast: string,
    windSpeed: string,
    windDirection: string)

  /**
   * The three HTTP replies loadForecasts waits for: the point lookup and the
   * hourly and daily forecasts, each with its `response.ok` flag, and the
   * decoded `properties.periods` arrays of the last two.
   */
  datatype ForecastReply = ForecastReply(
    pointOk: bool,
    hourlyOk: bool,
    dailyOk: bool,
    hourly: seq<Period>,
    daily: seq<Period>)

  /** The pair loadForecasts resolves to. */
  datatype Forecast = Forecast(hourly: seq<Period>, daily: seq<Period>)

  /** The two errors loadForecasts throws. */
  datatype ForecastError = PointUnavailable | DetailsUnavailable {
    function Message(): string {
      match this
      case PointUnavailable => "Forecast service unavailable for that location."
      case DetailsUnavailable => "Could not load forecast details. Please try another U.S. location."
    }
  }

  /**
   * `periods.slice(0, limit)`: the longest prefix of `periods` that is no
   * longer than `limit`, in the original order.
   */
  function Take<T>(periods: seq<T>, limit: nat): (r: seq<T>)
    ensures |r| <= limit && |r| <= |periods|
    ensures r == periods[..|r|]
    ensures |r| == limit || r == periods
  {
    if |periods| <= limit then periods else periods[..limit]
  }

  /**
   * loadForecasts after its fetches: a failed point lookup, then a failed
   * hourly or daily fetch, throw; otherwise the periods are truncated to at
   * most 24 hourly and at most 10 daily, each a prefix of what was fetched.
   */
  function LoadForecasts(reply: ForecastReply): (r: Result<Forecast, ForecastError>)
    ensures !reply.pointOk ==> r == Err(PointUnavailable)
    ensures reply.pointOk && !(reply.hourlyOk && reply.dailyOk) ==> r == Err(DetailsUnavailable)
    ensures r.Ok? <==> reply.pointOk && reply.hourlyOk && reply.dailyOk
    ensures r.Ok? ==> |r.value.hourly| == if |reply.hourly| < HourlyLimit then |reply.hourly| else HourlyLimit
    ensures r.Ok? ==> |r.value.daily| == if |reply.daily| < DailyLimit then |reply.daily| else DailyLimit
    ensures r.Ok? ==> r.value.hourly == reply.hourly[..|r.value.hourly|]
    ensures r.Ok? ==> r.value.daily == reply.daily[..|r.value.daily|]
  {
    if !reply.pointOk then Err(PointUnavailable)
    else if !reply.hourlyOk || !reply.dailyOk then Err(DetailsUnavailable)
    else Ok(Forecast(Take(reply.hourly, HourlyLimit), Take(reply.daily, DailyLimit)))
  }
}
