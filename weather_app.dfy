/** The `WeatherApp` object: the state its event handlers update (the search
    history, the theme, the city field, the suggestion list, the error line,
    the loading ring, the tabs and the forecast cards) and the handlers
    themselves. The page, its colours and the weather service are outside
    the model; the service is a parameter saying what a request for a city
    returns. */
module App {
  import opened Seqs
  import opened Text
  import opened Themes
  import opened History
  import opened DailyForecast

  /** What asking the weather service about a city gives: the forecast
      samples, or the text of the exception it raised. */
  datatype FetchOutcome = Fetched(samples: seq<Sample>) | FetchFailed(message: string)

  /** The mark put in front of every error message. */
  const ErrorMark: string := "\U{274C} "

  class WeatherApp {
    var searchHistory: seq<string>
    var currentTheme: string
    var themeIcon: ButtonIcon
    var currentCity: string
    /** The text in the city field. */
    var cityInput: string
    /** The cities of the suggestion list, and whether it is shown. */
    var suggestions: seq<string>
    var suggestionsVisible: bool
    var errorText: string
    var errorVisible: bool
    var loading: bool
    var tabsVisible: bool
    var weatherVisible: bool
    var forecastVisible: bool
    /** The cards of the forecast tab. */
    var forecast: seq<DaySummary>

    /** What holds between events: the history has at most ten entries, no
        repeats and only trimmed cities; the theme is one of the three and
        the button shows its icon; the current city is empty or trimmed; and
        an error shown hides the results. */
    ghost predicate Valid()
      reads this
    {
      WellFormed(searchHistory) &&
      IsTheme(currentTheme) && themeIcon == IconOf(PaletteOf(currentTheme)) &&
      (currentCity == [] || Trimmed(currentCity)) &&
      (errorVisible ==> !tabsVisible && !weatherVisible && !forecastVisible)
    }

    /** A new app: empty history, light theme, empty field, nothing shown. */
    constructor ()
      ensures Valid()
      ensures searchHistory == [] && currentTheme == Light && themeIcon == Sunny
      ensures currentCity == [] && cityInput == [] && suggestions == [] && errorText == [] && forecast == []
      ensures !suggestionsVisible && !errorVisible && !loading && !tabsVisible && !weatherVisible && !forecastVisible
    {
      searchHistory := [];
      currentTheme := Light;
      themeIcon := Sunny;
      currentCity := [];
      cityInput := [];
      suggestions := [];
      suggestionsVisible := false;
      errorText := [];
      errorVisible := false;
      loading := false;
      tabsVisible := false;
      weatherVisible := false;
      forecastVisible := false;
      forecast := [];
    }

    /** `cycle_theme`: the theme moves one step along light, dark, pink and
        the button takes the new theme's icon; nothing else changes. */
    method CycleTheme()
      requires Valid()
      modifies this`currentTheme, this`themeIcon
      ensures Valid()
      ensures currentTheme == NextTheme(old(currentTheme))
      ensures themeIcon == IconOf(PaletteOf(currentTheme))
    {
      if currentTheme == Light {
        currentTheme := Dark;
        themeIcon := DarkMode;
      } else if currentTheme == Dark {
        currentTheme := Pink;
        themeIcon := Favorite;
      } else {
        currentTheme := Light;
        themeIcon := Sunny;
      }
    }

    /** `add_to_history`: only the history changes, as `AddedToHistory` says. */
    method AddToHistory(city: string)
      modifies this`searchHistory
      ensures searchHistory == AddedToHistory(old(searchHistory), city)
    {
      if city !in searchHistory {
        searchHistory := [city] + searchHistory;
        searchHistory := searchHistory[..Min(|searchHistory|, MaxHistory)];
      }
    }

    /** `show_suggestions`: the list holds `cities` and is shown. */
    method ShowSuggestions(cities: seq<string>)
      modifies this`suggestions, this`suggestionsVisible
      ensures suggestions == cities && suggestionsVisible
    {
      suggestions := cities;
      suggestionsVisible := true;
    }

    /** `on_input_change`, after the field has taken the text `value`: the
        suggestion list becomes what `SuggestionsOnChange` says; when it is
        hidden, its last cities stay behind it. */
    method OnInputChange(value: string)
      requires Valid()
      modifies this`cityInput, this`suggestions, this`suggestionsVisible
      ensures Valid()
      ensures cityInput == value
      ensures suggestionsVisible == SuggestionsOnChange(searchHistory, value).Shown?
      ensures suggestionsVisible ==> suggestions == SuggestionsOnChange(searchHistory, value).cities
      ensures !suggestionsVisible ==> unchanged(this`suggestions)
    {
      cityInput := value;
      match SuggestionsOnChange(searchHistory, value) {
        case Shown(matchingCities) => ShowSuggestions(matchingCities);
        case Hidden => suggestionsVisible := false;
      }
    }

    /** `on_input_focus`: a blank field over a non-empty history shows the
        whole history; otherwise nothing changes. */
    method OnInputFocus()
      requires Valid()
      modifies this`suggestions, this`suggestionsVisible
      ensures Valid()
      ensures SuggestionsOnFocus(searchHistory, cityInput).Some? ==> suggestionsVisible && suggestions == searchHistory
      ensures SuggestionsOnFocus(searchHistory, cityInput).None? ==>
        suggestionsVisible == old(suggestionsVisible) && suggestions == old(suggestions)
    {
      if Strip(cityInput) == [] && |searchHistory| > 0 {
        ShowSuggestions(searchHistory);
      }
    }

    /** `on_input_blur`, once its delay has passed: the list is hidden. */
    method OnInputBlur()
      requires Valid()
      modifies this`suggestionsVisible
      ensures Valid()
      ensures !suggestionsVisible
    {
      suggestionsVisible := false;
    }

    /** `show_error`: the marked message is shown and the results are hidden. */
    method ShowError(message: string)
      requires Valid()
      modifies this`errorText, this`errorVisible, this`tabsVisible, this`weatherVisible, this`forecastVisible
      ensures Valid()
      ensures errorText == ErrorMark + message && errorVisible
      ensures !tabsVisible && !weatherVisible && !forecastVisible
    {
      errorText := ErrorMark + message;
      errorVisible := true;
      weatherVisible := false;
      forecastVisible := false;
      tabsVisible := false;
    }

    /** The state a request starts from: the loading ring is shown, and the
        error line, the tabs, both result containers and the suggestion list
        are hidden. */
    method StartLoading()
      requires Valid()
      modifies this`loading, this`errorVisible, this`tabsVisible, this`weatherVisible, this`forecastVisible, this`suggestionsVisible
      ensures Valid()
      ensures loading && !errorVisible && !tabsVisible && !weatherVisible && !forecastVisible && !suggestionsVisible
    {
      loading := true;
      errorVisible := false;
      tabsVisible := false;
      weatherVisible := false;
      forecastVisible := false;
      suggestionsVisible := false;
    }

    /** A searched city becomes the current one and enters the history. */
    method EnterCity(city: string)
      requires Valid() && Trimmed(city)
      modifies this`currentCity, this`searchHistory
      ensures Valid()
      ensures currentCity == city && searchHistory == AddedToHistory(old(searchHistory), city)
    {
      currentCity := city;
      AddKeepsWellFormed(searchHistory, city);
      AddToHistory(city);
    }

    /** A request for `city` whose samples gave the forecast cards `cards`:
        the city becomes current and enters the history, the cards are put
        in the forecast tab, and the tabs open on the current weather. */
    method ShowResults(city: string, cards: seq<DaySummary>)
      requires Valid() && Trimmed(city) && !errorVisible
      modifies this`currentCity, this`searchHistory, this`forecast, this`tabsVisible, this`weatherVisible, this`forecastVisible
      ensures Valid()
      ensures currentCity == city && searchHistory == AddedToHistory(old(searchHistory), city)
      ensures forecast == cards
      ensures tabsVisible && weatherVisible && !forecastVisible
    {
      EnterCity(city);
      forecast := cards;
      tabsVisible := true;
      weatherVisible := true;
      forecastVisible := false;
    }

    /** The outcome of a search for a blank field: the blank-city error is
        shown, the results are hidden, and the history, the current city,
        the cards, the suggestion list and the loading ring are as before. */
    twostate predicate BlankRejected()
      reads this
    {
      errorText == ErrorMark + BlankCityError && errorVisible &&
      !tabsVisible && !weatherVisible && !forecastVisible &&
      unchanged(this`searchHistory, this`currentCity, this`forecast, this`suggestionsVisible, this`loading)
    }

    /** The blank-city branch of `get_weather_and_forecast`. */
    method RejectBlank()
      requires Valid()
      modifies this`errorText, this`errorVisible, this`tabsVisible, this`weatherVisible, this`forecastVisible
      ensures Valid()
      ensures BlankRejected()
    {
      ShowError(BlankCityError);
    }

    /** The outcome of a request for `city` that got `response`, from a
        state whose history, current city and cards were `history`, `city0`
        and `cards`: the suggestion list and the loading ring are hidden. A
        failure shows its message and leaves the history, the current city
        and the cards as they were. A success makes `city` current, adds it
        to the history, holds the forecast cards of the samples and opens
        the tabs on the current weather, with no error shown. */
    ghost predicate Requested(city: string, response: FetchOutcome, dateOf: int -> Date,
                              history: seq<string>, city0: string, cards: seq<DaySummary>)
      reads this
    {
      !suggestionsVisible && !loading &&
      (response.FetchFailed? ==>
        errorText == ErrorMark + response.message && errorVisible &&
        !tabsVisible && !weatherVisible && !forecastVisible &&
        searchHistory == history && currentCity == city0 && forecast == cards) &&
      (response.Fetched? ==>
        currentCity == city && searchHistory == AddedToHistory(history, city) &&
        forecast == Forecast(response.samples, dateOf) &&
        !errorVisible && tabsVisible && weatherVisible && !forecastVisible)
    }

    /** The part of `get_weather_and_forecast` after the blank-city check,
        for the trimmed city `city`: the page shows the loading state, then
        either the results or the request's error, and the loading ring goes
        away in every case. */
    method RequestWeather(city: string, response: FetchOutcome, dateOf: int -> Date)
      requires Valid() && Trimmed(city)
      modifies this`searchHistory, this`currentCity, this`forecast, this`errorText, this`errorVisible, this`loading,
              this`tabsVisible, this`weatherVisible, this`forecastVisible, this`suggestionsVisible
      ensures Valid()
      ensures Requested(city, response, dateOf, old(searchHistory), old(currentCity), old(forecast))
    {
      StartLoading();
      match response {
        case Fetched(samples) =>
          var cards := DisplayForecast(samples, dateOf);
          ShowResults(city, cards);
        case FetchFailed(message) =>
          ShowError(message);
      }
      loading := false;
    }

    /** `get_weather_and_forecast`, with `response` standing for what the
        two requests for the stripped city give and `dateOf` for the local
        calendar date of a timestamp. A blank field shows the blank-city
        error and changes nothing else. Otherwise the request is made for
        the stripped text, as `RequestWeather` says. */
    method GetWeatherAndForecast(response: FetchOutcome, dateOf: int -> Date) returns (query: Option<string>)
      requires Valid()
      modifies this`searchHistory, this`currentCity, this`forecast, this`errorText, this`errorVisible, this`loading,
              this`tabsVisible, this`weatherVisible, this`forecastVisible, this`suggestionsVisible
      ensures Valid()
      ensures query == SearchCity(cityInput)
      ensures query.None? ==> BlankRejected()
      ensures query.Some? ==> Requested(query.value, response, dateOf, old(searchHistory), old(currentCity), old(forecast))
    {
      query := SearchCity(cityInput);
      if query.None? {
        RejectBlank();
      } else {
        RequestWeather(query.value, response, dateOf);
      }
    }

    /** `select_suggestion`: the chosen city goes into the field and the
        list is hidden. The search it schedules is `GetWeatherAndForecast`,
        which then runs for the stripped city. */
    method SelectSuggestion(city: string)
      requires Valid()
      modifies this`cityInput, this`suggestionsVisible
      ensures Valid()
      ensures cityInput == city && !suggestionsVisible
    {
      cityInput := city;
      suggestionsVisible := false;
    }
  }
}
