/** The search history of the weather app and what is derived from it: the
    capped most-recently-used list `add_to_history` maintains, the
    suggestions shown under the city field while typing and on focus, and
    the blank-city check that guards a search. */
module History {
  import opened Seqs
  import opened Text

  /** The most entries the history keeps. */
  const MaxHistory: nat := 10

  /** The history after `add_to_history(city)`: a city already present
      leaves it as it is; a new city goes in front and the list is cut back
      to its first ten entries. */
  function AddedToHistory(history: seq<string>, city: string): (r: seq<string>)
    ensures city in r
    ensures city in history ==> r == history
    ensures city !in history ==>
      |r| == Min(|history| + 1, MaxHistory) && r[0] == city && r[1..] == history[..|r| - 1]
  {
    if city !in history then
      var h := [city] + history;
      assert h[0] == city;
      h[..Min(|h|, MaxHistory)]
    else history
  }

  /** The history never grows past ten entries once it is within ten. */
  lemma AddKeepsBound(history: seq<string>, city: string)
    requires |history| <= MaxHistory
    ensures |AddedToHistory(history, city)| <= MaxHistory
  {
  }

  /** A history without repeats stays without repeats. */
  lemma AddKeepsNoDuplicates(history: seq<string>, city: string)
    requires NoDuplicates(history)
    ensures NoDuplicates(AddedToHistory(history, city))
  {
    var r := AddedToHistory(history, city);
    if city !in history {
      forall i, j | 0 <= i < j < |r|
        ensures r[i] != r[j]
      {
        assert r[j] == history[j - 1];
        if i > 0 {
          assert r[i] == history[i - 1];
        } else {
          assert history[j - 1] in history;
        }
      }
    }
  }

  /** Adding puts no entry in the history other than the city added. */
  lemma AddOnlyAdds(history: seq<string>, city: string)
    ensures forall c :: c in AddedToHistory(history, city) ==> c == city || c in history
  {
    var r := AddedToHistory(history, city);
    if city !in history {
      forall c | c in r
        ensures c == city || c in history
      {
        var i :| 0 <= i < |r| && r[i] == c;
        if i > 0 {
          assert r[i] == history[i - 1];
        }
      }
    }
  }

  /** What the history looks like when only searches have filled it: at most
      ten entries, no repeats, every entry a trimmed city name. */
  ghost predicate WellFormed(history: seq<string>) {
    |history| <= MaxHistory && NoDuplicates(history) && forall c :: c in history ==> Trimmed(c)
  }

  /** Adding a trimmed city keeps the history well formed. */
  lemma AddKeepsWellFormed(history: seq<string>, city: string)
    requires WellFormed(history) && Trimmed(city)
    ensures WellFormed(AddedToHistory(history, city))
  {
    AddKeepsBound(history, city);
    AddKeepsNoDuplicates(history, city);
    AddOnlyAdds(history, city);
  }

  /** When a new city pushes the history past ten, the entries that fall
      off are the oldest ones: an entry survives exactly when fewer than
      nine entries are newer than it. */
  lemma AddDropsOldest(history: seq<string>, city: string)
    requires NoDuplicates(history)
    requires city !in history
    ensures forall i :: 0 <= i < |history| ==>
      (history[i] in AddedToHistory(history, city) <==> i < MaxHistory - 1)
  {
    var r := AddedToHistory(history, city);
    forall i | 0 <= i < |history|
      ensures history[i] in r <==> i < MaxHistory - 1
    {
      if i < MaxHistory - 1 {
        assert r[i + 1] == history[i];
      }
    }
  }

  /** `search_text in city.lower()`. */
  predicate Matches(city: string, searchText: string) {
    Contains(Lower(city), searchText)
  }

  /** `[city for city in history if search_text in city.lower()]`. */
  function Matching(history: seq<string>, searchText: string): (r: seq<string>)
    ensures |r| <= |history|
    ensures forall c :: c in r ==> c in history && Matches(c, searchText)
  {
    Filter(history, (city: string) => Matches(city, searchText))
  }

  /** The matching entries are exactly the history entries whose lower-cased
      text contains the search text, each as often as in the history. */
  lemma MatchingExact(history: seq<string>, searchText: string)
    ensures forall c :: c in Matching(history, searchText) <==>
      c in history && Matches(c, searchText)
    ensures forall c :: multiset(Matching(history, searchText))[c]
                         == (if Matches(c, searchText) then multiset(history)[c] else 0)
  {
    forall c
      ensures multiset(Matching(history, searchText))[c] ==
        (if Matches(c, searchText) then multiset(history)[c] else 0)
    {
      FilterMultiplicity(history, (city: string) => Matches(city, searchText), c);
    }
  }

  /** The matching entries keep history order: matching a history made of
      two parts matches each part and puts the results one after the other. */
  lemma MatchingKeepsOrder(a: seq<string>, b: seq<string>, searchText: string)
    ensures Matching(a + b, searchText) == Matching(a, searchText) + Matching(b, searchText)
  {
    FilterConcat(a, b, (city: string) => Matches(city, searchText));
  }

  /** What the suggestion list under the city field shows. */
  datatype SuggestionView = Hidden | Shown(cities: seq<string>)

  /** The suggestions after the text in the city field changes to `input`. */
  function SuggestionsOnChange(history: seq<string>, input: string): (v: SuggestionView)
    ensures v.Shown? ==> v.cities != []
  {
    var searchText := Lower(Strip(input));
    if searchText == [] || |history| == 0 then Hidden
    else
      var matching := Matching(history, searchText);
      if matching != [] then Shown(matching) else Hidden
  }

  /** While typing, the list is shown exactly when the stripped text is not
      blank and some history entry contains it (ignoring case); then it holds
      those entries and no others, in history order (MatchingKeepsOrder). A
      blank field or an empty history always hides it. */
  lemma SuggestionsOnChangeExact(history: seq<string>, input: string)
    ensures SuggestionsOnChange(history, input).Shown? <==>
      !AllSpace(input) && exists c :: c in history && Matches(c, Lower(Strip(input)))
    ensures SuggestionsOnChange(history, input).Shown? ==>
      SuggestionsOnChange(history, input).cities == Matching(history, Lower(Strip(input)))
    ensures SuggestionsOnChange(history, input).Shown? ==>
      forall c :: c in SuggestionsOnChange(history, input).cities <==>
        c in history && Matches(c, Lower(Strip(input)))
    ensures AllSpace(input) || history == [] ==> SuggestionsOnChange(history, input) == Hidden
  {
    var searchText := Lower(Strip(input));
    assert searchText == [] <==> AllSpace(input) by {
      assert |searchText| == |Strip(input)|;
    }
    MatchingExact(history, searchText);
    var v := SuggestionsOnChange(history, input);
    if searchText != [] && history != [] {
      var m := Matching(history, searchText);
      assert v == (if m != [] then Shown(m) else Hidden);
      if m != [] {
        assert m[0] in m;
      }
    }
  }

  /** When the city field gains focus: with a blank field and a non-empty
      history the whole history is shown, otherwise nothing changes (None). */
  function SuggestionsOnFocus(history: seq<string>, input: string): (v: Option<SuggestionView>)
    ensures v.Some? <==> AllSpace(input) && history != []
    ensures v.Some? ==> v.value == Shown(history)
  {
    if Strip(input) == [] && |history| > 0 then Some(Shown(history)) else None
  }

  datatype Option<T> = None | Some(value: T)

  /** The city a search is made for: the stripped text of the field, or None
      when nothing but whitespace was typed, in which case no request is made
      and an error is shown instead. */
  function SearchCity(input: string): (r: Option<string>)
    ensures r.None? <==> AllSpace(input)
    ensures r.Some? ==> Trimmed(r.value) && r.value == Strip(input)
  {
    var city := Strip(input);
    if city == [] then None else Some(city)
  }

  /** The error shown for a blank city field. */
  const BlankCityError: string := "Please enter a city name"
}
