# Weather app core, modelled in Dafny

This project models the logic inside the `WeatherApp` class of the mod6
weather application (`mod6_labs/main.py`), a Flet desktop app that shows
the current weather and a five-day forecast for a city. Five parts of that
class carry behaviour that can be stated apart from the widgets:

- **Search history** (`add_to_history`): a most-recently-used list of
  cities. It holds at most ten entries, puts a new city in front and
  ignores a city it already holds.
- **Theme cycle** (`cycle_theme`): light → dark → pink → light. Any other
  value goes to light. The theme button takes the icon of the new theme.
- **City suggestions** (`on_input_change`, `on_input_focus`). While typing,
  the list shows the history entries whose lower-cased text contains the
  stripped, lower-cased input. On focus with a blank field, it shows the
  whole history.
- **Blank-city guard** (`get_weather_and_forecast`). A field that is blank
  after stripping shows an error and makes no request. Otherwise the page
  shows the loading state, then the results or the request's error.
- **Forecast summary** (`display_forecast`):
  - the 3-hour samples are grouped by calendar day;
  - the day keys are sorted and the first five are kept;
  - each kept day becomes a card with its high and low temperature and its
    most frequent condition and icon.

Modules:

- `Seqs` (seqs.dfy) holds the shared helpers:
  - an order-keeping filter, which is a list comprehension with a
    condition;
  - the first-seen list of distinct values, which is the key order of a
    dict filled in a loop;
  - facts about repeats.
- `Text` (text.dfy) models Python's `str.strip()`, `str.lower()` and the
  substring test `sub in s` on `seq<char>`.
- `Themes` (themes.dfy) models the theme string, its cycle, the choice of
  colour table and the button icon.
- `History` (history.dfy) models the history update, the suggestion rules
  and the city a search is made for. These are pure functions with lemmas.
- `DailyForecast` (forecast.dfy) models the forecast summary:
  - the grouping loop is a method over a `map`;
  - sorting, max, min and the mode are functions;
  - `Forecast` is the reference definition of the card list;
  - the loop that builds the cards is proved equal to it.
- `App` (weather_app.dfy) holds the class `WeatherApp`:
  - its fields are the state the handlers update;
  - `Valid()` is the invariant that holds between events;
  - each method is a handler. Its contract ties the new state to the
    functions above.

The weather service is not modelled. A request is described by a
`FetchOutcome` value: either the forecast samples or the message of the
exception raised. `datetime.fromtimestamp(dt).strftime("%Y-%m-%d")` depends
on the local time zone. It is the parameter `dateOf: int -> Date`, and a
date key is a (year, month, day) triple ordered lexicographically, which
is how the zero-padded key strings sort.

The most frequent condition and icon are computed as
`max(set(xs), key=xs.count)`. A tie goes to whichever value the set
yields first, and string hashing randomises that order. `Mode` enumerates
the candidates in first-seen order, which is one of the orders the set can
yield. Its contract promises only "a value of maximal count". The forecast
cards that `Forecast` defines, and that the app stores, therefore show one
of the outcomes the program can produce on a tie (see "## Left out").

## Model

| member | source | states |
|---|---|---|
| Themes.Transitions | mod6_labs/main.py:248-256 | one click takes light to dark and dark to pink, and takes every other string, pink included, to light |
| Themes.NextTheme | mod6_labs/main.py:248-256 | the theme after a click is always one of light, dark and pink, and it is never the theme before the click |
| Themes.CycleReturns | mod6_labs/main.py:248-256 | from light, dark or pink, three clicks return to the starting theme, and one or two clicks do not |
| Themes.StrayThemeEntersCycle | mod6_labs/main.py:254-256 | a theme string that is none of the three becomes light after one click and is light again after four |
| Themes.PaletteOf | mod6_labs/main.py:37-107 | the light table is chosen exactly for "light" and the dark table exactly for "dark"; every other string gets the pink table |
| Themes.IconOf | mod6_labs/main.py:248-256 | the button shows the sunny icon exactly with the light table and the dark-mode icon exactly with the dark table; the pink table gets the remaining icon |
| Themes.PaletteFollowsCycle | mod6_labs/main.py:246-258 | for every theme string, one click moves the colour table one step along light, dark, pink, light |
| History.AddedToHistory | mod6_labs/main.py:473-477 | the city is in the result; a city already present leaves the history exactly as it was; a new city goes to index 0, the old entries follow in order, and the length is min(n + 1, 10) |
| History.AddKeepsBound | mod6_labs/main.py:475-477 | a history of at most ten entries still has at most ten after an add |
| History.AddKeepsNoDuplicates | mod6_labs/main.py:475-477 | a history without repeats has none after an add |
| History.AddOnlyAdds | mod6_labs/main.py:475-477 | every entry after an add is the added city or was already in the history |
| History.AddKeepsWellFormed | mod6_labs/main.py:473-477 | adding a stripped city keeps the history bounded by ten, without repeats and made of stripped cities |
| History.AddDropsOldest | mod6_labs/main.py:476-477 | when a new city is added, an old entry survives exactly when fewer than nine entries are newer than it, so the oldest are dropped first |
| History.Matching | mod6_labs/main.py:320-322 | the comprehension keeps at most the history's entries, and every entry it keeps is in the history and contains the search text after lower-casing |
| History.MatchingExact | mod6_labs/main.py:320-322 | the matches are exactly the history entries whose lower-cased text contains the search text, each as often as in the history |
| History.MatchingKeepsOrder | mod6_labs/main.py:320-322 | matching a history split in two matches each part and concatenates the results, so history order is kept |
| History.SuggestionsOnChange | mod6_labs/main.py:313-328 | a list that is shown is never empty |
| History.SuggestionsOnChangeExact | mod6_labs/main.py:313-328 | the list is shown iff the input is not blank and some entry contains the stripped, lower-cased input; it then holds exactly the matching entries in history order; a blank input or an empty history hides it |
| History.SuggestionsOnFocus | mod6_labs/main.py:330-333 | focus changes the list iff the field is blank and the history is not empty, and it then shows the whole history |
| History.SearchCity | mod6_labs/main.py:392-396 | no city (the blank-city error) iff the field holds only whitespace; otherwise the city is exactly `value.strip()`, with no whitespace at either end |
| Text.SpanStart | mod6_labs/main.py:392 | the scan for the start of `strip()` passes only whitespace and stops at the first non-whitespace character or at the end |
| Text.SpanEnd | mod6_labs/main.py:392 | the scan back for the end of `strip()` passes only whitespace and stops just after the last non-whitespace character or at the start |
| Text.Strip | mod6_labs/main.py:392 | the result is empty iff the input is all whitespace, and otherwise it starts and ends with a non-whitespace character |
| Text.StripSlice | mod6_labs/main.py:392 | the stripped text is one contiguous piece of the input, and only whitespace is removed on each side |
| Text.LowerChar | mod6_labs/main.py:313 | a capital (ASCII A-Z, or a Latin-1 capital) becomes the small letter 32 code points on, which is not a capital; every other character is kept |
| Text.Lower | mod6_labs/main.py:313 | lower-casing keeps the length and lower-cases each character in its place |
| Text.LowerIdempotent | mod6_labs/main.py:313-321 | lower-casing an already lower-cased text changes nothing |
| Text.LowerKeepsSpace | mod6_labs/main.py:313-315 | a lower-cased text is all whitespace exactly when the text is |
| Text.ContainsAt | mod6_labs/main.py:321 | `sub in s` holds iff `sub` occurs in `s` at some offset |
| Text.ContainsBounds | mod6_labs/main.py:321 | the empty string is in every string, and nothing longer than `s` is in `s` |
| DailyForecast.DatesOf | mod6_labs/main.py:625-627 | one date key per sample, in sample order, each the key of its sample's timestamp |
| DailyForecast.SamplesOn | mod6_labs/main.py:625-643 | the samples of a day are exactly the samples whose date key is that day |
| DailyForecast.DateListed | mod6_labs/main.py:625-627 | every sample's date key is among the keys |
| DailyForecast.SamplesOnNonEmpty | mod6_labs/main.py:629-635 | a day has samples iff it is the date key of some sample |
| DailyForecast.AddSample | mod6_labs/main.py:637-643 | appending a sample keeps the bucket's first timestamp |
| DailyForecast.AddSampleSpec | mod6_labs/main.py:629-643 | adding a sample to a day's bucket, or to a fresh bucket for a new day, gives the bucket of that day's samples with the new one at the end |
| DailyForecast.GroupOf | mod6_labs/main.py:623-643 | in the dict the loop builds, every day's temperature list is non-empty and the three lists have equal length |
| DailyForecast.GroupByDay | mod6_labs/main.py:622-643 | the dict's keys are the distinct date keys in first-seen order; each day's bucket holds that day's temperatures, conditions and icons in sample order, in lists of equal length, with the first sample's timestamp |
| DailyForecast.GroupOfAt | mod6_labs/main.py:625-643 | a day is a key of the grouping iff it has samples, and its bucket is built from exactly those samples |
| DailyForecast.GroupingPartitions | mod6_labs/main.py:625-643 | the sizes of the day buckets add up to the number of samples, so every sample is in exactly one bucket |
| Seqs.Distinct | mod6_labs/main.py:629-635 | the dict's keys in insertion order: exactly the values of the input, without repeats, at most as many as the input |
| DailyForecast.Insert | mod6_labs/main.py:646 | inserting into a sorted key list keeps it sorted and adds exactly that key |
| DailyForecast.SortDates | mod6_labs/main.py:646 | `sorted(keys)` is in ascending order and a permutation of the keys |
| DailyForecast.SortedDistinctIncreasing | mod6_labs/main.py:646 | sorting keys without repeats gives strictly ascending keys |
| DailyForecast.ShownDates | mod6_labs/main.py:646 | `sorted(keys)[:5]` has at most five keys, in ascending order |
| DailyForecast.ShownDatesSpec | mod6_labs/main.py:622-646 | the days shown are min(#distinct days, 5) strictly ascending date keys of the samples; a sample's day that is left out is later than every shown day; no samples give no days |
| DailyForecast.MaxOf | mod6_labs/main.py:654 | `max(temps)` is one of the temperatures and no temperature exceeds it |
| DailyForecast.MinOf | mod6_labs/main.py:655 | `min(temps)` is one of the temperatures and no temperature is below it |
| DailyForecast.MaxByCount | mod6_labs/main.py:658 | `max(cands, key=xs.count)` is a candidate, and no candidate occurs more often in `xs` |
| DailyForecast.Mode | mod6_labs/main.py:658-661 | the chosen value occurs in the list, and no value of the list occurs more often |
| DailyForecast.ModeUnique | mod6_labs/main.py:658-661 | a value that occurs strictly more often than every other is the one chosen |
| DailyForecast.ModeExample | mod6_labs/main.py:658 | conditions Clear, Clear, Rain are summarised as Clear |
| DailyForecast.Summarize | mod6_labs/main.py:653-661 | the card keeps the day's key and first timestamp; its low is at most its high, both are temperatures of the day, and its condition and icon come from the day's lists |
| DailyForecast.SummaryOn | mod6_labs/main.py:652-661 | the card for a day carries that day's key |
| DailyForecast.SummaryFacts | mod6_labs/main.py:652-661 | the card of a day's bucket has low ≤ t ≤ high for every sample; high, low, condition and icon each come from some sample; no condition or icon occurs more often than the chosen one |
| DailyForecast.SummaryOnSpec | mod6_labs/main.py:652-661 | the card for a day with samples has that day's first timestamp; low ≤ t ≤ high for every sample of the day; high, low, condition and icon are attained by samples of the day; the condition and the icon are of maximal count among the day's samples |
| DailyForecast.Forecast | mod6_labs/main.py:646-661 | the reference card list: one card per shown day, at most five, card i keyed by shown day i |
| DailyForecast.ForecastAt | mod6_labs/main.py:646-661 | there is one card per shown day, and card j is the summary of shown day j, a date some sample has |
| DailyForecast.ForecastOfCards | mod6_labs/main.py:652-661 | a list holding, in order, the card of every shown day is the forecast |
| DailyForecast.CardOfBucket | mod6_labs/main.py:653-661 | the card computed from a day's bucket is that day's card, and the bucket's lists are not empty |
| DailyForecast.DisplayForecast | mod6_labs/main.py:622-661 | the cards the grouping loop and the card loop produce are exactly the reference `Forecast` |
| DailyForecast.ForecastKeys | mod6_labs/main.py:646-661 | card k is keyed by shown day k, and there are as many cards as shown days |
| DailyForecast.CardsFollowDays | mod6_labs/main.py:652 | cards keyed by the days in order inherit the days' order, and a day with no card is not a shown day |
| DailyForecast.ForecastCards | mod6_labs/main.py:622-661 | there are min(#distinct days, 5) cards, in strictly ascending date order, each for a date some sample has; a sample's day without a card is later than every card; no samples give no cards |
| App.WeatherApp.constructor | mod6_labs/main.py:13-20 | a new app has an empty history, the light theme with the sunny icon, no current city, and nothing shown: no suggestions, no error, no loading ring, no tabs or results |
| App.WeatherApp.CycleTheme | mod6_labs/main.py:246-256 | the theme becomes `NextTheme` of the old one, the button shows the new theme's icon, and the invariant is kept |
| App.WeatherApp.AddToHistory | mod6_labs/main.py:473-477 | only the history changes, and it becomes `AddedToHistory` of the old history |
| App.WeatherApp.ShowSuggestions | mod6_labs/main.py:344-375 | the list holds the given cities and is shown |
| App.WeatherApp.OnInputChange | mod6_labs/main.py:311-328 | the field holds the new text; the list is shown iff `SuggestionsOnChange` shows it, then with its cities; a hidden list keeps its last cities; the invariant is kept |
| App.WeatherApp.OnInputFocus | mod6_labs/main.py:330-333 | a blank field over a non-empty history shows the whole history; otherwise the list is untouched; the invariant is kept |
| App.WeatherApp.OnInputBlur | mod6_labs/main.py:335-342 | the list is hidden and the invariant is kept |
| App.WeatherApp.SelectSuggestion | mod6_labs/main.py:383-388 | the chosen city is put in the field, the list is hidden, and the invariant is kept |
| App.WeatherApp.ShowError | mod6_labs/main.py:829-839 | the error line shows the marked message, and the tabs, the weather and the forecast are hidden |
| App.WeatherApp.StartLoading | mod6_labs/main.py:398-404 | the loading ring is shown; the error, the tabs, both result containers and the suggestions are hidden |
| App.WeatherApp.EnterCity | mod6_labs/main.py:413-414 | the city becomes current and is added to the history, keeping the invariant |
| App.WeatherApp.ShowResults | mod6_labs/main.py:413-425 | the city becomes current and enters the history, the forecast cards are stored, and the tabs open on the weather |
| App.WeatherApp.RejectBlank | mod6_labs/main.py:392-396 | the blank-city error is shown and the results are hidden; the history, current city, cards, suggestion list and loading ring are unchanged |
| App.WeatherApp.RequestWeather | mod6_labs/main.py:398-431 | on failure, the message is shown and the history, city and cards are as before; on success, the city is current, the history is `AddedToHistory`, the cards are `Forecast` of the samples, and the tabs show with no error; in both cases, loading and suggestions end hidden |
| App.WeatherApp.GetWeatherAndForecast | mod6_labs/main.py:390-431 | the search is for the stripped field text; a blank field gives `RejectBlank`'s outcome with no request, any other gives `RequestWeather`'s outcome; the invariant is kept |

## Left out

- `get_location_weather` (mod6_labs/main.py:433-471) is left out. It looks up the city through ipapi.co over the network.
- `display_weather` (mod6_labs/main.py:479-578) is left out. It only formats the current weather into widgets, and the model keeps only which container is visible.
- The card widgets of `display_forecast` are left out, along with the `.title()` of the condition, the `%A`/`%b %d` date labels and the number formatting. The model stops at the values a card shows.
- `on_tab_change`, `tabs.selected_index`, `on_suggestion_hover`, `page.update()` and every widget colour are left out. They are presentation only.
- `get_theme_colors` is reduced to which of its three tables is chosen, and `update_all_colors` is not modelled.
- The weather service and `asyncio.gather` are replaced by the `FetchOutcome` parameter of `RequestWeather` and `GetWeatherAndForecast`.
- An exception raised by `display_weather` or `display_forecast` after the history was updated is not modelled. In the source it would show an error with the city already added.
- The 0.2-second delay before `on_input_blur` hides the list is not modelled. `OnInputBlur` is the state after the delay.
- `datetime.fromtimestamp` and the local time zone are the `dateOf` parameter. Years that `strftime` would not print with four digits are not distinguished.
- Temperatures are integers rather than floats. Only their order matters to the summary.
- Text.Lower: lower-cases ASCII and Latin-1 capitals only, not the full Unicode case mapping of Python's `str.lower()`.
- App.WeatherApp.RequestWeather: the stored cards are `Forecast` of the samples, which breaks a tie for the most frequent condition or icon in first-seen order. The program breaks it by set iteration order, so the stored cards are one of the outcomes the program can produce, not the only one.
- App.WeatherApp.GetWeatherAndForecast: the same first-seen tie-break holds for the cards it stores through `RequestWeather`.
- DailyForecast.DisplayForecast: equal to `Forecast`, so it too breaks a count tie in first-seen order, which is one of the program's possible outcomes.
- DailyForecast.Mode: promises a value of maximal count, not a particular one on a tie, because Python's set iteration order decides ties.
- App.WeatherApp.SelectSuggestion: does not run the search. `select_suggestion` schedules `get_weather_and_forecast` as a separate task, which is `GetWeatherAndForecast` on the new field text.
- Ordering between concurrent tasks, such as a blur firing during a request, is not modelled. Each handler runs to completion.
- week3_labs and week4_labs (the login form, the MySQL wrapper and the contact book) are separate apps and not part of this model.
