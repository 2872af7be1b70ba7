/**
 * The OpenWeatherMap service: current conditions, the next four forecast
 * periods, a summary for tomorrow and the sun times; fixed sample data when
 * there is no API key or anything fails.
 */
module WeatherService {

  import opened Wrappers
  import Seqs

  // ----------------------------------------------------------------- icons

  const IconMap: map<string, string> := map[
    "01d" := "sun", "01n" := "sun",
    "02d" := "cloud", "02n" := "cloud",
    "03d" := "cloud", "03n" := "cloud",
    "04d" := "cloud", "04n" := "cloud",
    "09d" := "rain", "09n" := "rain",
    "10d" := "rain", "10n" := "rain",
    "11d" := "rain", "11n" := "rain",
    "13d" := "snow", "13n" := "snow",
    "50d" := "cloud", "50n" := "cloud"]

  /** `getWeatherIcon`: the dashboard icon of an OpenWeatherMap icon code, `sun` for unknown codes. */
  function WeatherIcon(iconCode: string): (r: string)
    ensures r in {"sun", "cloud", "rain", "snow"}
    ensures iconCode !in IconMap ==> r == "sun"
  {
    if iconCode in IconMap then IconMap[iconCode] else "sun"
  }

  /** The clear-sky codes read as sun. */
  lemma SunCodes()
    ensures WeatherIcon("01d") == "sun" && WeatherIcon("01n") == "sun"
  {
  }

  /** The few, scattered, broken cloud and mist codes read as cloud. */
  lemma CloudCodes()
    ensures WeatherIcon("02d") == "cloud" && WeatherIcon("02n") == "cloud"
    ensures WeatherIcon("03d") == "cloud" && WeatherIcon("03n") == "cloud"
    ensures WeatherIcon("04d") == "cloud" && WeatherIcon("04n") == "cloud"
    ensures WeatherIcon("50d") == "cloud" && WeatherIcon("50n") == "cloud"
  {
  }

  /** The shower, rain and thunderstorm codes read as rain. */
  lemma RainCodes()
    ensures WeatherIcon("09d") == "rain" && WeatherIcon("09n") == "rain"
    ensures WeatherIcon("10d") == "rain" && WeatherIcon("10n") == "rain"
    ensures WeatherIcon("11d") == "rain" && WeatherIcon("11n") == "rain"
  {
  }

  /** The snow codes read as snow. */
  lemma SnowCodes()
    ensures WeatherIcon("13d") == "snow" && WeatherIcon("13n") == "snow"
  {
  }

  /** Day and night variants of a code get the same icon, and the groups are as documented by the map. */
  lemma DayAndNightAgree(base: string)
    requires base in {"01", "02", "03", "04", "09", "10", "11", "13", "50"}
    ensures WeatherIcon(base + "d") == WeatherIcon(base + "n")
    ensures WeatherIcon(base + "d") ==
              if base == "01" then "sun"
              else if base in {"09", "10", "11"} then "rain"
              else if base == "13" then "snow"
              else "cloud"
  {
    var d := base + "d";
    var n := base + "n";
    if base == "01" {
      assert d == "01d" && n == "01n";
      SunCodes();
    } else if base == "02" {
      assert d == "02d" && n == "02n";
      CloudCodes();
    } else if base == "03" {
      assert d == "03d" && n == "03n";
      CloudCodes();
    } else if base == "04" {
      assert d == "04d" && n == "04n";
      CloudCodes();
    } else if base == "09" {
      assert d == "09d" && n == "09n";
      RainCodes();
    } else if base == "10" {
      assert d == "10d" && n == "10n";
      RainCodes();
    } else if base == "11" {
      assert d == "11d" && n == "11n";
      RainCodes();
    } else if base == "13" {
      assert d == "13d" && n == "13n";
      SnowCodes();
    } else {
      assert d == "50d" && n == "50n";
      CloudCodes();
    }
  }

  // ------------------------------------------------------------------- data

  /** One entry of a `weather` array. */
  datatype Condition = Condition(main: string, description: string, icon: string)

  /** The `main` block of the current conditions, temperatures already in whole degrees Celsius. */
  datatype MainBlock = MainBlock(tempC: int, feelsLikeC: int, humidity: int)

  datatype SunTimes = SunTimes(sunrise: int, sunset: int)

  /**
   * The current-conditions answer. `main` is absent when the body has none;
   * the wind speed is already in km/h.
   */
  datatype CurrentData = CurrentData(main: Option<MainBlock>, weather: seq<Condition>, windKmh: int,
                                     uvi: Option<int>, sys: Option<SunTimes>)

  /**
   * A forecast period: `dt` in epoch seconds, temperatures in whole degrees
   * Celsius, with `tempMaxC`/`tempMinC` absent when the answer has none, and
   * the probability of precipitation as a fraction.
   */
  datatype ForecastItem = ForecastItem(dt: int, tempC: int, tempMinC: Option<int>, tempMaxC: Option<int>,
                                       weather: seq<Condition>, pop: Option<real>)

  /** One request: any failure on the way (HTTP error including 401, network, body), or the decoded answer. */
  datatype Fetched<T> = Failed | Fetched(data: T)

  datatype Current = Current(temp: int, condition: string, humidity: int, windSpeed: int, uvIndex: int,
                             airQuality: string, feelsLike: int)
  datatype Hourly = Hourly(time: string, temp: int, icon: string)
  datatype Tomorrow = Tomorrow(date: string, high: int, low: int, condition: string, icon: string, precipitation: int)
  datatype Sun = Sun(sunrise: string, sunset: string)
  datatype WeatherData = WeatherData(current: Current, today: seq<Hourly>, tomorrow: Tomorrow, sun: Sun)

  /** `getMockWeatherData`. */
  const MockWeatherData := WeatherData(
    Current(22, "Ensoleillé", 65, 12, 6, "Bon", 25),
    [Hourly("12h", 24, "sun"), Hourly("15h", 26, "cloud"), Hourly("18h", 23, "sun"), Hourly("21h", 19, "cloud")],
    Tomorrow("Demain", 28, 16, "Partiellement nuageux", "cloud", 20),
    Sun("06:32", "19:45"))

  // ----------------------------------------------------------------- today

  /** `item.weather[0]?.icon || '01d'`. */
  function FirstIcon(weather: seq<Condition>): string
  {
    if weather != [] && weather[0].icon != [] then weather[0].icon else "01d"
  }

  /** `item.weather[0]?.description || 'Inconnu'`. */
  function FirstDescription(weather: seq<Condition>): string
  {
    if weather != [] && weather[0].description != [] then weather[0].description else "Inconnu"
  }

  /** A forecast period as an hourly entry; `formatHour` renders the `fr-CA` hour of a millisecond time. */
  function ToHourly(item: ForecastItem, formatHour: int -> string): Hourly
  {
    Hourly(formatHour(item.dt * 1000) + "h", item.tempC, WeatherIcon(FirstIcon(item.weather)))
  }

  /** `list.slice(0, 4).map(...)`: the first four periods, in order. */
  function Today(list: seq<ForecastItem>, formatHour: int -> string): (r: seq<Hourly>)
    ensures |r| == if |list| < 4 then |list| else 4
    ensures forall i :: 0 <= i < |r| ==> r[i] == ToHourly(list[i], formatHour)
  {
    var first := if |list| < 4 then list else list[..4];
    Seqs.Map(first, (item: ForecastItem) => ToHourly(item, formatHour))
  }

  // -------------------------------------------------------------- tomorrow

  function HighOf(item: ForecastItem): int { if item.tempMaxC.Some? then item.tempMaxC.value else item.tempC }
  function LowOf(item: ForecastItem): int { if item.tempMinC.Some? then item.tempMinC.value else item.tempC }
  function PopOf(item: ForecastItem): real { if item.pop.Some? then item.pop.value else 0.0 }

  /** `Math.max(...xs)` on a non-empty list. */
  function MaxOf<T>(xs: seq<T>, f: T -> int): (m: int)
    requires xs != []
    ensures exists i :: 0 <= i < |xs| && m == f(xs[i])
    ensures forall i :: 0 <= i < |xs| ==> f(xs[i]) <= m
  {
    if |xs| == 1 then f(xs[0])
    else
      var rest := MaxOf(xs[1..], f);
      assert forall i :: 1 <= i < |xs| ==> xs[i] == xs[1..][i - 1];
      if f(xs[0]) >= rest then f(xs[0]) else rest
  }

  /** `Math.min(...xs)` on a non-empty list. */
  function MinOf<T>(xs: seq<T>, f: T -> int): (m: int)
    requires xs != []
    ensures exists i :: 0 <= i < |xs| && m == f(xs[i])
    ensures forall i :: 0 <= i < |xs| ==> m <= f(xs[i])
  {
    if |xs| == 1 then f(xs[0])
    else
      var rest := MinOf(xs[1..], f);
      assert forall i :: 1 <= i < |xs| ==> xs[i] == xs[1..][i - 1];
      if f(xs[0]) <= rest then f(xs[0]) else rest
  }

  /** `Math.max(...xs)` over fractions. */
  function MaxPop(xs: seq<ForecastItem>): (m: real)
    requires xs != []
    ensures exists i :: 0 <= i < |xs| && m == PopOf(xs[i])
    ensures forall i :: 0 <= i < |xs| ==> PopOf(xs[i]) <= m
  {
    if |xs| == 1 then PopOf(xs[0])
    else
      var rest := MaxPop(xs[1..]);
      assert forall i :: 1 <= i < |xs| ==> xs[i] == xs[1..][i - 1];
      if PopOf(xs[0]) >= rest then PopOf(xs[0]) else rest
  }

  /** `Math.round`: the nearest integer, halves rounded up. */
  function Round(x: real): (n: int)
    ensures x - 0.5 < n as real <= x + 0.5
  {
    (x + 0.5).Floor
  }

  /**
   * What the tomorrow summary promises: fixed values without periods;
   * otherwise the highest high, the lowest low, the largest chance of
   * precipitation in percent, and the first period's description and icon.
   */
  predicate SummarizesTomorrow(t: Tomorrow, items: seq<ForecastItem>)
  {
    t.date == "Demain" &&
    (items == [] ==> t == Tomorrow("Demain", 20, 10, "Inconnu", "sun", 0)) &&
    (items != [] ==>
      HighestHigh(items, t.high) && LowestLow(items, t.low) && LargestChance(items, t.precipitation) &&
      t.condition == FirstDescription(items[0].weather) &&
      t.icon == WeatherIcon(FirstIcon(items[0].weather)))
  }

  /** `high` is the high of some period and no period's high is above it. */
  predicate HighestHigh(items: seq<ForecastItem>, high: int)
  {
    (exists i :: 0 <= i < |items| && high == HighOf(items[i])) &&
    (forall i :: 0 <= i < |items| ==> HighOf(items[i]) <= high)
  }

  /** `low` is the low of some period and no period's low is below it. */
  predicate LowestLow(items: seq<ForecastItem>, low: int)
  {
    (exists i :: 0 <= i < |items| && low == LowOf(items[i])) &&
    (forall i :: 0 <= i < |items| ==> low <= LowOf(items[i]))
  }

  /** `percent` is some period's chance rounded to a percentage and no period's chance rounds above it. */
  predicate LargestChance(items: seq<ForecastItem>, percent: int)
  {
    (exists i :: 0 <= i < |items| && percent == Round(PopOf(items[i]) * 100.0)) &&
    (forall i :: 0 <= i < |items| ==> PopOf(items[i]) * 100.0 - 0.5 < percent as real)
  }

  /** The tomorrow block: defaults, overwritten when there are periods for tomorrow. */
  method TomorrowSummary(items: seq<ForecastItem>) returns (t: Tomorrow)
    ensures SummarizesTomorrow(t, items)
  {
    var high := 20;
    var low := 10;
    var precip := 0;
    var condition := "Inconnu";
    var icon := "01d";
    if |items| > 0 {
      high := MaxOf(items, HighOf);
      assert HighestHigh(items, high);
      low := MinOf(items, LowOf);
      assert LowestLow(items, low);
      var maxPop := MaxPop(items);
      precip := Round(maxPop * 100.0);
      assert forall i :: 0 <= i < |items| ==> PopOf(items[i]) * 100.0 <= maxPop * 100.0;
      assert LargestChance(items, precip);
      condition := FirstDescription(items[0].weather);
      icon := FirstIcon(items[0].weather);
    } else {
      SunCodes();
    }
    t := Tomorrow("Demain", high, low, condition, WeatherIcon(icon), precip);
  }

  // ------------------------------------------------------------ the service

  /** The checks `getCurrentWeather` makes before using the answers. */
  predicate Usable(current: Fetched<CurrentData>, forecast: Fetched<seq<ForecastItem>>)
  {
    current.Fetched? && current.data.main.Some? && current.data.weather != [] &&
    forecast.Fetched? && forecast.data != []
  }

  /**
   * `getCurrentWeather`. `isTomorrow` says whether a millisecond time falls on
   * tomorrow's day of the month, `formatHour` and `formatTime` are the
   * `fr-CA` renderings of a millisecond time.
   */
  method GetCurrentWeather(apiKey: string, current: Fetched<CurrentData>, forecast: Fetched<seq<ForecastItem>>,
                           isTomorrow: int -> bool, formatHour: int -> string, formatTime: int -> string)
    returns (data: WeatherData)
    ensures apiKey == [] || !Usable(current, forecast) ==> data == MockWeatherData
    ensures apiKey != [] && Usable(current, forecast) ==>
              data.today == Today(forecast.data, formatHour) &&
              SummarizesTomorrow(data.tomorrow,
                                 Seqs.Filter(forecast.data, (item: ForecastItem) => isTomorrow(item.dt * 1000)))
    ensures apiKey != [] && Usable(current, forecast) ==>
              var c := current.data;
              data.current == Current(c.main.value.tempC, c.weather[0].description, c.main.value.humidity,
                                      c.windKmh, if c.uvi.Some? then c.uvi.value else 0, "Bon", c.main.value.feelsLikeC)
    ensures apiKey != [] && Usable(current, forecast) ==>
              var c := current.data;
              data.sun == Sun(formatTime(if c.sys.Some? then c.sys.value.sunrise * 1000 else 0),
                              formatTime(if c.sys.Some? then c.sys.value.sunset * 1000 else 0))
  {
    if apiKey == [] {
      return MockWeatherData;
    }
    if !current.Fetched? || current.data.main.None? || current.data.weather == [] {
      return MockWeatherData;
    }
    if !forecast.Fetched? || forecast.data == [] {
      return MockWeatherData;
    }
    var c := current.data;
    var list := forecast.data;
    var today := Today(list, formatHour);
    var tomorrowForecasts := Seqs.Filter(list, (item: ForecastItem) => isTomorrow(item.dt * 1000));
    var tomorrow := TomorrowSummary(tomorrowForecasts);
    data := WeatherData(
      Current(c.main.value.tempC, c.weather[0].description, c.main.value.humidity, c.windKmh,
              if c.uvi.Some? then c.uvi.value else 0, "Bon", c.main.value.feelsLikeC),
      today,
      tomorrow,
      Sun(formatTime(if c.sys.Some? then c.sys.value.sunrise * 1000 else 0),
          formatTime(if c.sys.Some? then c.sys.value.sunset * 1000 else 0)));
  }

  /** The today list never has more than four entries. */
  lemma TodayAtMostFour(list: seq<ForecastItem>, formatHour: int -> string)
    ensures |Today(list, formatHour)| <= 4
    ensures |list| >= 4 ==> |Today(list, formatHour)| == 4
  {
  }

  /** A single period for tomorrow sets every value of the summary. */
  lemma SinglePeriod(item: ForecastItem, t: Tomorrow)
    requires SummarizesTomorrow(t, [item])
    ensures t.high == HighOf(item) && t.low == LowOf(item) && t.precipitation == Round(PopOf(item) * 100.0)
  {
  }
}
