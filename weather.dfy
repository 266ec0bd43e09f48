/**
 * The weather app's session controller: the fields of `WeatherApp` that its
 * handlers update (recent searches, loading indicator, error line, weather
 * panel, theme), the handlers themselves, and what they promise.
 *
 * The weather service is an outcome handed to `GetWeather`; the history file
 * is a ghost copy `persisted`; a ghost `trace` records, in order, the calls to
 * the service and the file and what was shown.
 */
module WeatherSession {
  import opened Wrappers
  import opened Text

  const MaxHistory: nat := 5
  const MaxCityLength: nat := 50
  const EmptyCityMessage := "Please enter a city name"
  const CityTooLongMessage := "City name is too long (max 50 characters)"
  const FallbackErrorMessage := "An unexpected error occurred"
  const ErrorPrefix := "\U{274C} "
  /** What `str(e)` gives for the IndexError of `[][0]`. */
  const IndexErrorMessage := "list index out of range"
  const UnknownCity := "Unknown"
  const DefaultIcon := "01d"

  // ---------------------------------------------------------------------------
  // Recent searches

  /** Python's `s[:n]`. */
  function Take<T>(s: seq<T>, n: nat): (r: seq<T>)
    ensures |r| == if |s| < n then |s| else n
    ensures r == s[..|r|]
  {
    if |s| <= n then s else s[..n]
  }

  predicate NoDuplicates<T(==)>(s: seq<T>) {
    forall i, j :: 0 <= i < j < |s| ==> s[i] != s[j]
  }

  /**
   * The history after a successful search for `city`: unchanged when the city
   * is already listed (no move to the front); otherwise the city goes in front
   * and the list is cut to the five most recent.
   */
  function HistoryAfterAdd(history: seq<string>, city: string): (r: seq<string>)
    ensures city in r
    ensures city in history ==> r == history
    ensures city !in history ==>
      && r[0] == city
      && |r| == (if |history| < MaxHistory then |history| + 1 else MaxHistory)
      && r[1..] == history[..|r| - 1]
  {
    if city in history then history
    else
      var r := Take([city] + history, MaxHistory);
      assert r[0] == city;
      r
  }

  /** A history of at most five entries stays within five. */
  lemma HistoryAfterAddBounded(history: seq<string>, city: string)
    requires |history| <= MaxHistory
    ensures |HistoryAfterAdd(history, city)| <= MaxHistory
  {
  }

  /** A history without duplicates keeps none after an add. */
  lemma HistoryAfterAddNoDuplicates(history: seq<string>, city: string)
    requires NoDuplicates(history)
    ensures NoDuplicates(HistoryAfterAdd(history, city))
  {
    var r := HistoryAfterAdd(history, city);
    if city !in history {
      forall i, j | 0 <= i < j < |r| ensures r[i] != r[j] {
        assert r[j] == history[j - 1];
        if i > 0 { assert r[i] == history[i - 1]; }
      }
    }
  }

  /** Searching for the same city twice is searching for it once. */
  lemma HistoryAfterAddIdempotent(history: seq<string>, city: string)
    ensures HistoryAfterAdd(HistoryAfterAdd(history, city), city) == HistoryAfterAdd(history, city)
  {
  }

  /** The history after successful searches for `cities`, in order. */
  function AddAll(history: seq<string>, cities: seq<string>): seq<string>
    decreases |cities|
  {
    if cities == [] then history
    else HistoryAfterAdd(AddAll(history, cities[..|cities| - 1]), cities[|cities| - 1])
  }

  /** `s` last to first. */
  function Reverse(s: seq<string>): (r: seq<string>)
    ensures |r| == |s|
    decreases |s|
  {
    if s == [] then [] else [s[|s| - 1]] + Reverse(s[..|s| - 1])
  }

  /** Reversing keeps the members. */
  lemma {:induction false} ReverseHas(s: seq<string>, x: string)
    ensures x in Reverse(s) <==> x in s
    decreases |s|
  {
    if s != [] {
      ReverseHas(s[..|s| - 1], x);
      assert s == s[..|s| - 1] + [s[|s| - 1]];
    }
  }

  /** Cutting to five before or after putting one more in front gives the same list. */
  lemma TakeCons(x: string, s: seq<string>)
    ensures Take([x] + Take(s, MaxHistory), MaxHistory) == Take([x] + s, MaxHistory)
  {
  }

  /** `Reverse` takes the last element to the front. */
  lemma ReverseSnoc(s: seq<string>, x: string)
    ensures Reverse(s + [x]) == [x] + Reverse(s)
  {
    assert (s + [x])[..|s|] == s;
  }

  /** `ReverseSnoc` with a tail appended behind. */
  lemma ReverseSnocAppend(s: seq<string>, x: string, tail: seq<string>)
    ensures Reverse(s + [x]) + tail == [x] + (Reverse(s) + tail)
  {
    ReverseSnoc(s, x);
  }

  /** Without duplicates, the last element is not among the earlier ones, and those stay distinct. */
  lemma NoDuplicatesSplit(s: seq<string>)
    requires s != [] && NoDuplicates(s)
    ensures s[|s| - 1] !in s[..|s| - 1] && NoDuplicates(s[..|s| - 1])
  {
  }

  /** Adding a city absent from the whole list commutes with the cut to five. */
  lemma AddFreshStep(full: seq<string>, last: string)
    requires last !in full
    ensures HistoryAfterAdd(Take(full, MaxHistory), last) == Take([last] + full, MaxHistory)
  {
    assert last !in Take(full, MaxHistory);
    TakeCons(last, full);
  }

  /** One more fresh search on top of the listed history, stated on `Reverse`. */
  lemma AddFreshSnoc(history: seq<string>, init: seq<string>, last: string)
    requires last !in init && last !in history
    ensures HistoryAfterAdd(Take(Reverse(init) + history, MaxHistory), last)
         == Take(Reverse(init + [last]) + history, MaxHistory)
  {
    ReverseHas(init, last);
    AddFreshStep(Reverse(init) + history, last);
    ReverseSnocAppend(init, last, history);
  }

  /**
   * Searching for distinct cities not yet listed leaves the five most recent
   * searches, most recent first, followed by what fits of the old history.
   */
  lemma {:induction false} AddAllFresh(history: seq<string>, cities: seq<string>)
    requires |history| <= MaxHistory
    requires NoDuplicates(cities)
    requires forall i :: 0 <= i < |cities| ==> cities[i] !in history
    ensures AddAll(history, cities) == Take(Reverse(cities) + history, MaxHistory)
    decreases |cities|
  {
    if cities != [] {
      var n := |cities|;
      var init, last := cities[..n - 1], cities[n - 1];
      NoDuplicatesSplit(cities);
      AddAllFresh(history, init);
      AddFreshSnoc(history, init, last);
      assert cities == init + [last];
    }
  }

  /**
   * Starting from a history of at most five distinct cities, any run of
   * successful searches keeps it at most five long and free of duplicates.
   */
  lemma {:induction false} AddAllKeepsHistoryShape(history: seq<string>, cities: seq<string>)
    requires |history| <= MaxHistory && NoDuplicates(history)
    ensures |AddAll(history, cities)| <= MaxHistory && NoDuplicates(AddAll(history, cities))
    decreases |cities|
  {
    if cities != [] {
      var before := AddAll(history, cities[..|cities| - 1]);
      AddAllKeepsHistoryShape(history, cities[..|cities| - 1]);
      HistoryAfterAddBounded(before, cities[|cities| - 1]);
      HistoryAfterAddNoDuplicates(before, cities[|cities| - 1]);
    }
  }

  /** Six distinct searches from an empty history keep the last five, newest first. */
  lemma SixSearches(a: string, b: string, c: string, d: string, e: string, f: string)
    requires NoDuplicates([a, b, c, d, e, f])
    ensures AddAll([], [a, b, c, d, e, f]) == [f, e, d, c, b, a][..5]
  {
    AddAllFresh([], [a, b, c, d, e, f]);
    ReverseSnoc([], a);
    ReverseSnoc([a], b);
    ReverseSnoc([a, b], c);
    ReverseSnoc([a, b, c], d);
    ReverseSnoc([a, b, c, d], e);
    ReverseSnoc([a, b, c, d, e], f);
    assert [a] == [] + [a] && [a, b] == [a] + [b] && [a, b, c] == [a, b] + [c];
    assert [a, b, c, d] == [a, b, c] + [d] && [a, b, c, d, e] == [a, b, c, d] + [e];
    assert [a, b, c, d, e, f] == [a, b, c, d, e] + [f];
    assert Reverse([a, b, c, d, e, f]) + [] == [f, e, d, c, b, a];
  }

  // ---------------------------------------------------------------------------
  // Input validation

  /**
   * The checks `get_weather` runs on the city field: the input is stripped,
   * an empty result is refused first, then one over fifty characters; any
   * other input goes to the service as the stripped string.
   */
  function ValidateCity(raw: string): (r: Result<string, string>)
    ensures r.Ok? <==> Strip(raw) != [] && |Strip(raw)| <= MaxCityLength
    ensures r.Ok? ==> r.value == Strip(raw)
    ensures Strip(raw) == [] ==> r == Err(EmptyCityMessage)
    ensures |Strip(raw)| > MaxCityLength ==> r == Err(CityTooLongMessage)
  {
    var city := Strip(raw);
    if city == [] then Err(EmptyCityMessage)
    else if |city| > MaxCityLength then Err(CityTooLongMessage)
    else Ok(city)
  }

  /** Input made only of whitespace (the empty input included) never reaches the service. */
  lemma BlankCityRefused(raw: string)
    requires forall k :: 0 <= k < |raw| ==> IsSpace(raw[k])
    ensures ValidateCity(raw) == Err(EmptyCityMessage)
  {
    StripEmptyIff(raw);
  }

  /** The length limit is inclusive: fifty characters after stripping are accepted. */
  lemma LengthLimitInclusive(raw: string)
    requires |Strip(raw)| == MaxCityLength
    ensures ValidateCity(raw) == Ok(Strip(raw))
  {
  }

  // ---------------------------------------------------------------------------
  // Error line

  /** The text `show_error` puts on the error line. */
  function ErrorText(message: Option<string>): (r: string)
    ensures message.Some? && message.value != "" ==> r == ErrorPrefix + message.value
    ensures message.None? || message.value == "" ==> r == ErrorPrefix + FallbackErrorMessage
    ensures |r| > |ErrorPrefix| && r[..|ErrorPrefix|] == ErrorPrefix
  {
    var shown := if message.Some? && message.value != "" then message.value else FallbackErrorMessage;
    ErrorPrefix + shown
  }

  // ---------------------------------------------------------------------------
  // Theme

  datatype ThemeMode = System | Light | Dark
  /** The icon on the theme button. */
  datatype ThemeIcon = DarkModeIcon | LightModeIcon

  /** The page's theme and the button's icon after `toggle_theme`. */
  function Toggled(mode: ThemeMode): (r: (ThemeMode, ThemeIcon))
    ensures r.0 == Dark <==> mode == Light
    ensures r.0 != System
    ensures r.1 == LightModeIcon <==> r.0 == Dark
  {
    if mode == Light then (Dark, LightModeIcon) else (Light, DarkModeIcon)
  }

  /** Away from the system theme, two toggles come back to where they started. */
  lemma ToggleTwice(mode: ThemeMode)
    requires mode != System
    ensures Toggled(Toggled(mode).0).0 == mode
  {
  }

  // ---------------------------------------------------------------------------
  // The service's payload and what the weather panel shows of it

  datatype SysBlock = SysBlock(country: Option<string>)
  datatype MainBlock = MainBlock(temp: Option<real>, feelsLike: Option<real>, humidity: Option<int>)
  datatype Condition = Condition(description: Option<string>, icon: Option<string>)
  datatype WindBlock = WindBlock(speed: Option<real>)
  /** The service's JSON dictionary: every key may be missing. */
  datatype WeatherData = WeatherData(
    name: Option<string>,
    sys: Option<SysBlock>,
    main: Option<MainBlock>,
    weather: Option<seq<Condition>>,
    wind: Option<WindBlock>)

  /** The values the weather panel is built from. */
  datatype WeatherView = WeatherView(
    heading: string,
    cityName: string,
    country: string,
    temp: real,
    feelsLike: real,
    humidity: int,
    description: string,
    iconCode: string,
    windSpeed: real)

  /**
   * The extraction at the top of `display_weather`: a missing key gives its
   * default; a present but empty `weather` list makes `[0]` raise.
   */
  function ExtractWeather(data: WeatherData): (r: Result<WeatherView, string>)
    ensures r.Err? <==> data.weather == Some([])
    ensures r.Err? ==> r.error == IndexErrorMessage
    ensures r.Ok? ==>
      var v := r.value;
      && (data.name.Some? ==> v.cityName == data.name.value)
      && (data.name.None? ==> v.cityName == UnknownCity)
      && (data.sys.Some? && data.sys.value.country.Some? ==> v.country == data.sys.value.country.value)
      && (data.sys.None? || data.sys.value.country.None? ==> v.country == "")
      && v.heading == v.cityName + ", " + v.country
      && (data.main.None? || data.main.value.temp.None? ==> v.temp == 0.0)
      && (data.main.Some? && data.main.value.temp.Some? ==> v.temp == data.main.value.temp.value)
      && (data.main.None? || data.main.value.feelsLike.None? ==> v.feelsLike == 0.0)
      && (data.main.Some? && data.main.value.feelsLike.Some? ==> v.feelsLike == data.main.value.feelsLike.value)
      && (data.main.None? || data.main.value.humidity.None? ==> v.humidity == 0)
      && (data.main.Some? && data.main.value.humidity.Some? ==> v.humidity == data.main.value.humidity.value)
      && (data.wind.None? || data.wind.value.speed.None? ==> v.windSpeed == 0.0)
      && (data.wind.Some? && data.wind.value.speed.Some? ==> v.windSpeed == data.wind.value.speed.value)
      && (data.weather.None? ==> v.description == "" && v.iconCode == DefaultIcon)
      && (data.weather.Some? ==>
            var first := data.weather.value[0];
            && v.description == Title(first.description.GetOr(""))
            && v.iconCode == first.icon.GetOr(DefaultIcon))
  {
    if data.weather == Some([]) then Err(IndexErrorMessage)
    else
      var cityName := data.name.GetOr(UnknownCity);
      var country := data.sys.GetOr(SysBlock(None)).country.GetOr("");
      var main := data.main.GetOr(MainBlock(None, None, None));
      var first := data.weather.GetOr([Condition(None, None)])[0];
      Ok(WeatherView(
        cityName + ", " + country,
        cityName,
        country,
        main.temp.GetOr(0.0),
        main.feelsLike.GetOr(0.0),
        main.humidity.GetOr(0),
        Title(first.description.GetOr("")),
        first.icon.GetOr(DefaultIcon),
        data.wind.GetOr(WindBlock(None)).speed.GetOr(0.0)))
  }

  /** A payload with no keys at all shows an unknown city with every default. */
  lemma EmptyPayloadDefaults()
    ensures ExtractWeather(WeatherData(None, None, None, None, None))
         == Ok(WeatherView(UnknownCity + ", ", UnknownCity, "", 0.0, 0.0, 0, "", DefaultIcon, 0.0))
  {
    assert Title("") == "";
    assert UnknownCity + ", " + "" == UnknownCity + ", ";
  }

  // ---------------------------------------------------------------------------
  // The session

  /** What the weather service returned: the payload, or the text of what it raised. */
  datatype FetchOutcome = Fetched(data: WeatherData) | Failed(message: string)

  /** Observable effects, in the order the session performs them. */
  datatype Event =
    /** The loading indicator goes on, with the error line's and the panel's visibility at that moment. */
    | LoadingStarted(errorShown: bool, weatherShown: bool)
    | Fetch(city: string)
    | Save(history: seq<string>)
    | RefreshDropdown(options: seq<string>)
    | ErrorLine(message: Option<string>)
    | ShowWeather(view: WeatherView)
    | LoadingFinished

  class WeatherApp {
    var searchHistory: seq<string>
    /** The history file: absent until first written. */
    ghost var persisted: Option<seq<string>>
    var historyOptions: seq<string>
    var historySelection: Option<string>
    var cityInput: string
    var loading: bool
    var errorVisible: bool
    var errorText: string
    var weatherVisible: bool
    var weather: Option<WeatherView>
    var themeMode: ThemeMode
    var themeIcon: ThemeIcon
    ghost var trace: seq<Event>

    /**
     * Between handlers the loading indicator is off, the dropdown lists the
     * history, and the file holds the history (or is absent and the history empty).
     */
    ghost predicate Valid()
      reads this
    {
      !loading && HistoryMirrored()
    }

    /** The dropdown lists the history and the file holds it (or is absent and the history empty). */
    ghost predicate HistoryMirrored()
      reads this
    {
      && historyOptions == searchHistory
      && (persisted == Some(searchHistory) || (persisted == None && searchHistory == []))
    }

    /** The error line is up with `text` and the weather panel is hidden. */
    ghost predicate ErrorShown(text: string)
      reads this`errorVisible, this`errorText, this`weatherVisible
    {
      errorVisible && errorText == text && !weatherVisible
    }

    /**
     * Builds the app: `stored` is what the history file holds, `None` when
     * there is no file. The theme follows the system; nothing is shown yet.
     */
    constructor (stored: Option<seq<string>>)
      ensures Valid()
      ensures searchHistory == stored.GetOr([]) && persisted == stored
      ensures historySelection == None && cityInput == ""
      ensures !errorVisible && errorText == "" && !weatherVisible && weather == None
      ensures themeMode == System && themeIcon == DarkModeIcon
      ensures trace == []
    {
      searchHistory := stored.GetOr([]);
      persisted := stored;
      themeMode := System;
      themeIcon := DarkModeIcon;
      historyOptions := searchHistory;
      historySelection := None;
      cityInput := "";
      weatherVisible := false;
      weather := None;
      errorText := "";
      errorVisible := false;
      loading := false;
      trace := [];
    }

    /** `save_history`: the file now holds the history. */
    method SaveHistory()
      modifies this`persisted, this`trace
      ensures persisted == Some(searchHistory)
      ensures trace == old(trace) + [Save(searchHistory)]
    {
      persisted := Some(searchHistory);
      trace := trace + [Save(searchHistory)];
    }

    /** `update_history_dropdown`: the options mirror the history; the selection is cleared. */
    method UpdateHistoryDropdown()
      modifies this`historyOptions, this`historySelection, this`trace
      ensures historyOptions == searchHistory && historySelection == None
      ensures trace == old(trace) + [RefreshDropdown(searchHistory)]
    {
      historyOptions := searchHistory;
      historySelection := None;
      trace := trace + [RefreshDropdown(historyOptions)];
    }

    /**
     * `add_to_history`: a city already listed changes nothing (no save, no
     * refresh); a new one goes in front, the list is cut to five, saved and
     * shown in the dropdown.
     */
    method AddToHistory(city: string)
      requires HistoryMirrored()
      modifies this`searchHistory, this`persisted, this`historyOptions, this`historySelection, this`trace
      ensures HistoryMirrored()
      ensures searchHistory == HistoryAfterAdd(old(searchHistory), city)
      ensures city in old(searchHistory) ==>
        persisted == old(persisted) && historySelection == old(historySelection) && trace == old(trace)
      ensures city !in old(searchHistory) ==>
        && historySelection == None
        && trace == old(trace) + [Save(searchHistory), RefreshDropdown(searchHistory)]
    {
      if city !in searchHistory {
        searchHistory := [city] + searchHistory;
        searchHistory := Take(searchHistory, MaxHistory);
        SaveHistory();
        UpdateHistoryDropdown();
      }
    }

    /** `show_error`: the error line shows the message (or the fallback) and the weather panel hides. */
    method ShowError(message: Option<string>)
      modifies this`errorText, this`errorVisible, this`weatherVisible, this`trace
      ensures ErrorShown(ErrorText(message))
      ensures trace == old(trace) + [ErrorLine(message)]
    {
      errorText := ErrorText(message);
      errorVisible := true;
      weatherVisible := false;
      trace := trace + [ErrorLine(message)];
    }

    /** `toggle_theme`: light goes dark, anything else goes light; the icon offers the other one. */
    method ToggleTheme()
      modifies this`themeMode, this`themeIcon
      ensures (themeMode, themeIcon) == Toggled(old(themeMode))
    {
      if themeMode == Light {
        themeMode := Dark;
        themeIcon := LightModeIcon;
      } else {
        themeMode := Light;
        themeIcon := DarkModeIcon;
      }
    }

    /**
     * `display_weather`: fills and shows the weather panel and hides the
     * error line, or returns the text of what the extraction raised, having
     * changed nothing.
     */
    method DisplayWeather(data: WeatherData) returns (raised: Option<string>)
      modifies this`weather, this`weatherVisible, this`errorVisible, this`trace
      ensures ExtractWeather(data).Err? ==>
        && raised == Some(ExtractWeather(data).error)
        && weather == old(weather) && weatherVisible == old(weatherVisible)
        && errorVisible == old(errorVisible) && trace == old(trace)
      ensures ExtractWeather(data).Ok? ==>
        && raised == None
        && weather == Some(ExtractWeather(data).value) && weatherVisible && !errorVisible
        && trace == old(trace) + [ShowWeather(ExtractWeather(data).value)]
    {
      var extracted := ExtractWeather(data);
      match extracted
      case Err(e) =>
        raised := Some(e);
      case Ok(view) =>
        weather := Some(view);
        weatherVisible := true;
        errorVisible := false;
        trace := trace + [ShowWeather(view)];
        raised := None;
    }

    /**
     * The body of the `try` in `get_weather` once the service has answered
     * with `data`: the city is recorded first, then the panel is filled; if
     * filling it raises, the exception's text goes to the error line.
     */
    method ShowFetched(city: string, data: WeatherData)
      requires HistoryMirrored()
      modifies this`searchHistory, this`persisted, this`historyOptions, this`historySelection,
               this`errorVisible, this`errorText, this`weatherVisible, this`weather, this`trace
      ensures HistoryMirrored()
      ensures searchHistory == HistoryAfterAdd(old(searchHistory), city)
      ensures persisted == (if city in old(searchHistory) then old(persisted) else Some(searchHistory))
      ensures historySelection == (if city in old(searchHistory) then old(historySelection) else None)
      ensures var saves := if city in old(searchHistory) then [] else [Save(searchHistory), RefreshDropdown(searchHistory)];
        match ExtractWeather(data)
        case Err(e) =>
          && weather == old(weather)
          && ErrorShown(ErrorText(Some(e)))
          && trace == old(trace) + saves + [ErrorLine(Some(e))]
        case Ok(view) =>
          && weather == Some(view) && weatherVisible && !errorVisible
          && errorText == old(errorText)
          && trace == old(trace) + saves + [ShowWeather(view)]
    {
      AddToHistory(city);
      var raised := DisplayWeather(data);
      if raised.Some? {
        ShowError(raised);
      }
    }

    /**
     * What the fetch-and-show part of `get_weather` (its try, except and
     * finally) leaves behind for the validated `city`: the loading indicator
     * goes on, the service is called, the history is updated only when the
     * service returned data (and before the panel is filled), any failure goes
     * to the error line, and the indicator goes off last.
     */
    twostate predicate FetchDone(city: string, outcome: FetchOutcome)
      reads this`searchHistory, this`persisted, this`weather, this`trace, this`errorText, this`errorVisible, this`weatherVisible, this`loading
    {
      && !loading
      && match outcome
         case Failed(msg) =>
           && searchHistory == old(searchHistory) && persisted == old(persisted)
           && weather == old(weather)
           && ErrorShown(ErrorText(Some(msg)))
           && trace == old(trace) + [LoadingStarted(false, false), Fetch(city), ErrorLine(Some(msg)), LoadingFinished]
         case Fetched(data) =>
           var recorded := HistoryAfterAdd(old(searchHistory), city);
           var saves := if city in old(searchHistory) then [] else [Save(recorded), RefreshDropdown(recorded)];
           && searchHistory == recorded
           && persisted == (if city in old(searchHistory) then old(persisted) else Some(recorded))
           && match ExtractWeather(data)
              case Err(e) =>
                && weather == old(weather)
                && ErrorShown(ErrorText(Some(e)))
                && trace == old(trace) + [LoadingStarted(false, false), Fetch(city)] + saves
                                       + [ErrorLine(Some(e)), LoadingFinished]
              case Ok(view) =>
                && weather == Some(view) && weatherVisible && !errorVisible
                && errorText == old(errorText)
                && trace == old(trace) + [LoadingStarted(false, false), Fetch(city)] + saves
                                       + [ShowWeather(view), LoadingFinished]
    }

    /**
     * What one run of `get_weather` on the input `raw` leaves behind. A
     * refused input shows its error and hides the weather panel, as every
     * `show_error` does; there is no fetch, no history change and no loading
     * indicator. An accepted one is fetched and shown as `FetchDone` says.
     */
    twostate predicate CycleDone(raw: string, outcome: FetchOutcome)
      reads this`searchHistory, this`persisted, this`weather, this`trace, this`errorText, this`errorVisible, this`weatherVisible, this`loading
    {
      match ValidateCity(raw)
      case Err(msg) =>
        && !loading
        && searchHistory == old(searchHistory) && persisted == old(persisted)
        && weather == old(weather)
        && ErrorShown(ErrorText(Some(msg)))
        && trace == old(trace) + [ErrorLine(Some(msg))]
      case Ok(city) =>
        FetchDone(city, outcome)
    }

    /**
     * The rest of `get_weather` for an accepted city: loading on, the service
     * call inside `try`, the `except` that shows what was raised, and the
     * `finally` that turns loading off. The dropdown selection is cleared
     * exactly when the history changed.
     */
    method FetchAndShow(city: string, outcome: FetchOutcome)
      requires Valid()
      modifies this`searchHistory, this`persisted, this`historyOptions, this`historySelection,
               this`loading, this`errorVisible, this`errorText, this`weatherVisible, this`weather, this`trace
      ensures Valid()
      ensures FetchDone(city, outcome)
      ensures historySelection == (if searchHistory == old(searchHistory) then old(historySelection) else None)
    {
      loading := true;
      errorVisible := false;
      weatherVisible := false;
      trace := trace + [LoadingStarted(errorVisible, weatherVisible), Fetch(city)];
      match outcome {
        case Failed(msg) =>
          ShowError(Some(msg));
        case Fetched(data) =>
          ShowFetched(city, data);
      }
      loading := false;
      trace := trace + [LoadingFinished];
    }

    /**
     * `get_weather`, run to completion with the service answering `outcome`.
     * The dropdown selection is cleared exactly when the history changed.
     */
    method GetWeather(outcome: FetchOutcome)
      requires Valid()
      modifies this`searchHistory, this`persisted, this`historyOptions, this`historySelection,
               this`loading, this`errorVisible, this`errorText, this`weatherVisible, this`weather, this`trace
      ensures Valid()
      ensures CycleDone(old(cityInput), outcome)
      ensures historySelection == (if searchHistory == old(searchHistory) then old(historySelection) else None)
    {
      match ValidateCity(cityInput) {
        case Err(message) =>
          ShowError(Some(message));
        case Ok(city) =>
          FetchAndShow(city, outcome);
      }
    }

    /**
     * `load_from_history`: `selected` is the value the dropdown's change
     * event carries, the entry just picked. A non-empty one is copied into
     * the city field, the selection is cleared and the search runs on it; an
     * empty selection does nothing.
     */
    method LoadFromHistory(selected: Option<string>, outcome: FetchOutcome)
      requires Valid()
      modifies this`cityInput, this`searchHistory, this`persisted, this`historyOptions, this`historySelection,
               this`loading, this`errorVisible, this`errorText, this`weatherVisible, this`weather, this`trace
      ensures Valid()
      ensures selected.None? || selected.value == "" ==> unchanged(this)
      ensures selected.Some? && selected.value != "" ==>
        && cityInput == selected.value && historySelection == None
        && CycleDone(selected.value, outcome)
    {
      if selected.Some? && selected.value != "" {
        cityInput := selected.value;
        historySelection := None;
        GetWeather(outcome);
      }
    }
  }
}
