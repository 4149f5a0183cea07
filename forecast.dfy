/** The five-day forecast summary of the weather app: the 3-hour samples of
    the forecast response are grouped by calendar day, the day keys are
    sorted and the first five kept, and each kept day is reduced to its high
    and low temperature and its most frequent condition and icon. */
module DailyForecast {
  import opened Seqs

  /** A `"%Y-%m-%d"` date key, kept as its three numbers. Four-digit,
      zero-padded keys sort as strings exactly as these triples sort
      lexicographically. */
  datatype Date = Date(year: int, month: int, day: int)

  /** Strictly earlier. */
  predicate Before(a: Date, b: Date) {
    a.year < b.year ||
    (a.year == b.year && (a.month < b.month || (a.month == b.month && a.day < b.day)))
  }

  predicate NotAfter(a: Date, b: Date) {
    a == b || Before(a, b)
  }

  /** One entry of the forecast response's `list`: `dt`, `main.temp`,
      `weather[0].description` and `weather[0].icon`. */
  datatype Sample = Sample(dt: int, temp: int, condition: string, icon: string)

  /** One value of the `daily_forecasts` dict: the day's temperatures,
      conditions and icons in sample order, and the timestamp of the day's
      first sample (kept for the day name and date shown on the card). */
  datatype DayBucket = DayBucket(temps: seq<int>, conditions: seq<string>, icons: seq<string>, date: int)

  /** What a forecast card shows for one day. */
  datatype DaySummary = DaySummary(key: Date, date: int, high: int, low: int, condition: string, icon: string)

  /** The number of days shown. */
  const ForecastDays: nat := 5

  // ---------------------------------------------------------------------
  // Grouping by day

  /** The date key of every sample, in sample order. `dateOf` stands for
      `datetime.fromtimestamp(dt).strftime("%Y-%m-%d")`. */
  function DatesOf(samples: seq<Sample>, dateOf: int -> Date): (r: seq<Date>)
    ensures |r| == |samples|
    ensures forall i :: 0 <= i < |samples| ==> r[i] == dateOf(samples[i].dt)
  {
    seq(|samples|, i requires 0 <= i < |samples| => dateOf(samples[i].dt))
  }

  function OnDay(dateOf: int -> Date, d: Date): Sample -> bool {
    (x: Sample) => dateOf(x.dt) == d
  }

  /** The samples whose date key is `d`, in sample order. */
  function SamplesOn(samples: seq<Sample>, dateOf: int -> Date, d: Date): (r: seq<Sample>)
    ensures forall x :: x in r <==> x in samples && dateOf(x.dt) == d
  {
    Filter(samples, OnDay(dateOf, d))
  }

  /** Every sample's date key is among the keys. */
  lemma DateListed(samples: seq<Sample>, dateOf: int -> Date, x: Sample)
    requires x in samples
    ensures dateOf(x.dt) in DatesOf(samples, dateOf)
  {
    var i :| 0 <= i < |samples| && samples[i] == x;
    assert DatesOf(samples, dateOf)[i] == dateOf(x.dt);
  }

  /** A day has samples exactly when it is the date key of some sample. */
  lemma SamplesOnNonEmpty(samples: seq<Sample>, dateOf: int -> Date, d: Date)
    ensures SamplesOn(samples, dateOf, d) != [] <==> d in DatesOf(samples, dateOf)
  {
    var r := SamplesOn(samples, dateOf, d);
    if d in DatesOf(samples, dateOf) {
      var i :| 0 <= i < |samples| && DatesOf(samples, dateOf)[i] == d;
      assert samples[i] in r;
    }
    if r != [] {
      assert r[0] in r;
      DateListed(samples, dateOf, r[0]);
    }
  }

  function Temps(ss: seq<Sample>): (r: seq<int>)
    ensures |r| == |ss| && forall i :: 0 <= i < |ss| ==> r[i] == ss[i].temp
  {
    seq(|ss|, i requires 0 <= i < |ss| => ss[i].temp)
  }

  function Conditions(ss: seq<Sample>): (r: seq<string>)
    ensures |r| == |ss| && forall i :: 0 <= i < |ss| ==> r[i] == ss[i].condition
  {
    seq(|ss|, i requires 0 <= i < |ss| => ss[i].condition)
  }

  function Icons(ss: seq<Sample>): (r: seq<string>)
    ensures |r| == |ss| && forall i :: 0 <= i < |ss| ==> r[i] == ss[i].icon
  {
    seq(|ss|, i requires 0 <= i < |ss| => ss[i].icon)
  }

  /** The bucket the grouping loop builds from the samples `ss` of one day. */
  function BucketOf(ss: seq<Sample>): DayBucket
    requires ss != []
  {
    DayBucket(Temps(ss), Conditions(ss), Icons(ss), ss[0].dt)
  }

  /** Appending a sample to the bucket of `ss` (or to a fresh bucket when
      `ss` is empty) gives the bucket of `ss + [x]`. */
  lemma AddSampleSpec(ss: seq<Sample>, x: Sample)
    ensures AddSample(if ss == [] then DayBucket([], [], [], x.dt) else BucketOf(ss), x) == BucketOf(ss + [x])
  {
    assert Temps(ss + [x]) == Temps(ss) + [x.temp];
    assert Conditions(ss + [x]) == Conditions(ss) + [x.condition];
    assert Icons(ss + [x]) == Icons(ss) + [x.icon];
    if ss == [] {
      assert Temps([x]) == [x.temp];
      assert Conditions([x]) == [x.condition];
      assert Icons([x]) == [x.icon];
    }
  }

  lemma SamplesOnSnoc(samples: seq<Sample>, i: nat, dateOf: int -> Date, d: Date)
    requires i < |samples|
    ensures SamplesOn(samples[..i + 1], dateOf, d) ==
      SamplesOn(samples[..i], dateOf, d) + (if dateOf(samples[i].dt) == d then [samples[i]] else [])
  {
    assert samples[..i + 1] == samples[..i] + [samples[i]];
    FilterConcat(samples[..i], [samples[i]], OnDay(dateOf, d));
    assert Filter([samples[i]], OnDay(dateOf, d)) ==
      (if dateOf(samples[i].dt) == d then [samples[i]] else []) + Filter([samples[i]][1..], OnDay(dateOf, d));
    assert [samples[i]][1..] == [];
  }

  lemma DatesOfSnoc(samples: seq<Sample>, i: nat, dateOf: int -> Date)
    requires i < |samples|
    ensures Distinct(DatesOf(samples[..i + 1], dateOf)) ==
      var before := Distinct(DatesOf(samples[..i], dateOf));
      var key := dateOf(samples[i].dt);
      if key in before then before else before + [key]
  {
    var s := DatesOf(samples[..i + 1], dateOf);
    assert s[..|s| - 1] == DatesOf(samples[..i], dateOf);
  }

  /** `bucket["temps"].append(...)` and its two siblings. */
  function AddSample(b: DayBucket, x: Sample): (r: DayBucket)
    ensures r.date == b.date
  {
    b.(temps := b.temps + [x.temp], conditions := b.conditions + [x.condition], icons := b.icons + [x.icon])
  }

  /** The `daily_forecasts` dict after the grouping loop has seen `samples`. */
  function GroupOf(samples: seq<Sample>, dateOf: int -> Date): (r: map<Date, DayBucket>)
    ensures forall d :: d in r ==>
      r[d].temps != [] && |r[d].temps| == |r[d].conditions| == |r[d].icons|
  {
    if samples == [] then map[]
    else
      var days := GroupOf(samples[..|samples| - 1], dateOf);
      var item := samples[|samples| - 1];
      var key := dateOf(item.dt);
      var bucket := if key in days then days[key] else DayBucket([], [], [], item.dt);
      days[key := AddSample(bucket, item)]
  }

  /** Grouping puts each sample in the bucket of its own date key and in no
      other: the dict has a key exactly for the days that have samples, and
      the bucket of a day holds that day's samples, in sample order, with the
      timestamp of its first one. */
  lemma {:induction false} GroupOfAt(samples: seq<Sample>, dateOf: int -> Date, d: Date)
    ensures d in GroupOf(samples, dateOf) <==> SamplesOn(samples, dateOf, d) != []
    ensures d in GroupOf(samples, dateOf) ==> GroupOf(samples, dateOf)[d] == BucketOf(SamplesOn(samples, dateOf, d))
  {
    if samples != [] {
      var n := |samples| - 1;
      GroupOfAt(samples[..n], dateOf, d);
      SamplesOnSnoc(samples, n, dateOf, d);
      assert samples[..n + 1] == samples;
      if dateOf(samples[n].dt) == d {
        AddSampleSpec(SamplesOn(samples[..n], dateOf, d), samples[n]);
      }
    }
  }

  /** The `for item in forecast_list` loop: every sample is appended to the
      bucket of its date key, a bucket being created, with the sample's
      timestamp, the first time its key is seen. The result is the dict and
      its key order: every key of some sample, in first-seen order, and for
      each key exactly that day's samples, in sample order. */
  method GroupByDay(samples: seq<Sample>, dateOf: int -> Date) returns (days: map<Date, DayBucket>, order: seq<Date>)
    ensures order == Distinct(DatesOf(samples, dateOf))
    ensures forall d :: d in days <==> d in order
    ensures forall d :: d in days ==> SamplesOn(samples, dateOf, d) != [] && days[d] == BucketOf(SamplesOn(samples, dateOf, d))
  {
    days, order := map[], [];
    for i := 0 to |samples|
      invariant days == GroupOf(samples[..i], dateOf)
      invariant order == Distinct(DatesOf(samples[..i], dateOf))
    {
      var item := samples[i];
      var key := dateOf(item.dt);
      GroupOfAt(samples[..i], dateOf, key);
      SamplesOnNonEmpty(samples[..i], dateOf, key);
      DatesOfSnoc(samples, i, dateOf);
      assert samples[..i + 1][..i] == samples[..i];
      if key !in days {
        days := days[key := DayBucket([], [], [], item.dt)];
        order := order + [key];
      }
      days := days[key := AddSample(days[key], item)];
    }
    assert samples[..|samples|] == samples;
    forall d
      ensures d in days <==> d in order
      ensures d in days ==> SamplesOn(samples, dateOf, d) != [] && days[d] == BucketOf(SamplesOn(samples, dateOf, d))
    {
      GroupOfAt(samples, dateOf, d);
      SamplesOnNonEmpty(samples, dateOf, d);
    }
  }

  /** Every sample is counted in exactly one day: summing the sizes of the
      buckets over the distinct date keys gives the number of samples. */
  function TotalSize(samples: seq<Sample>, dateOf: int -> Date, keys: seq<Date>): nat {
    if keys == [] then 0
    else TotalSize(samples, dateOf, keys[..|keys| - 1]) + |SamplesOn(samples, dateOf, keys[|keys| - 1])|
  }

  lemma {:induction false} TotalSizeSnoc(samples: seq<Sample>, i: nat, dateOf: int -> Date, keys: seq<Date>)
    requires i < |samples|
    requires NoDuplicates(keys)
    ensures TotalSize(samples[..i + 1], dateOf, keys) ==
      TotalSize(samples[..i], dateOf, keys) + (if dateOf(samples[i].dt) in keys then 1 else 0)
  {
    if keys != [] {
      var init := keys[..|keys| - 1];
      var last := keys[|keys| - 1];
      assert NoDuplicates(init);
      TotalSizeSnoc(samples, i, dateOf, init);
      SamplesOnSnoc(samples, i, dateOf, last);
      assert keys == init + [last];
      assert dateOf(samples[i].dt) in keys <==> dateOf(samples[i].dt) in init || dateOf(samples[i].dt) == last;
      assert last !in init;
    }
  }

  lemma {:induction false} GroupingPartitions(samples: seq<Sample>, dateOf: int -> Date)
    ensures TotalSize(samples, dateOf, Distinct(DatesOf(samples, dateOf))) == |samples|
  {
    for i := 0 to |samples|
      invariant TotalSize(samples[..i], dateOf, Distinct(DatesOf(samples[..i], dateOf))) == i
    {
      var before := Distinct(DatesOf(samples[..i], dateOf));
      var key := dateOf(samples[i].dt);
      DatesOfSnoc(samples, i, dateOf);
      TotalSizeSnoc(samples, i, dateOf, before);
      if key !in before {
        assert key !in DatesOf(samples[..i], dateOf);
        SamplesOnNonEmpty(samples[..i], dateOf, key);
        SamplesOnSnoc(samples, i, dateOf, key);
        assert (before + [key])[..|before + [key]| - 1] == before;
        assert TotalSize(samples[..i + 1], dateOf, before + [key]) ==
          TotalSize(samples[..i + 1], dateOf, before) + |SamplesOn(samples[..i + 1], dateOf, key)|;
      }
    }
    assert samples[..|samples|] == samples;
  }

  // ---------------------------------------------------------------------
  // Sorting the day keys

  predicate Sorted(s: seq<Date>) {
    forall i, j :: 0 <= i < j < |s| ==> NotAfter(s[i], s[j])
  }

  predicate StrictlyIncreasing(s: seq<Date>) {
    forall i, j :: 0 <= i < j < |s| ==> Before(s[i], s[j])
  }

  lemma NotAfterTransitive(a: Date, b: Date, c: Date)
    requires NotAfter(a, b) && NotAfter(b, c)
    ensures NotAfter(a, c)
  {
  }

  /** Inserting `d` in front of the sorted `s` when it is not after `s[0]`. */
  lemma InsertFront(d: Date, s: seq<Date>)
    requires Sorted(s) && s != [] && NotAfter(d, s[0])
    ensures Sorted([d] + s)
  {
    forall i, j | 0 <= i < j < |[d] + s|
      ensures NotAfter(([d] + s)[i], ([d] + s)[j])
    {
      if i == 0 && j > 1 {
        NotAfterTransitive(d, s[0], s[j - 1]);
      }
    }
  }

  /** Putting `s[0]` in front of the sorted rest, `d` inserted. */
  lemma InsertBehind(d: Date, s: seq<Date>, rest: seq<Date>)
    requires Sorted(s) && s != [] && Before(s[0], d)
    requires Sorted(rest) && multiset(rest) == multiset(s[1..]) + multiset{d}
    ensures Sorted([s[0]] + rest)
    ensures multiset([s[0]] + rest) == multiset(s) + multiset{d}
  {
    forall j | 0 <= j < |rest|
      ensures NotAfter(s[0], rest[j])
    {
      assert rest[j] in multiset(rest);
      if rest[j] != d {
        assert rest[j] in multiset(s[1..]);
        var k :| 0 <= k < |s[1..]| && s[1..][k] == rest[j];
        assert s[k + 1] == rest[j];
      }
    }
    assert s == [s[0]] + s[1..];
  }

  function Insert(d: Date, s: seq<Date>): (r: seq<Date>)
    requires Sorted(s)
    ensures Sorted(r)
    ensures multiset(r) == multiset(s) + multiset{d}
  {
    if s == [] then [d]
    else if NotAfter(d, s[0]) then
      InsertFront(d, s);
      [d] + s
    else
      var rest := Insert(d, s[1..]);
      InsertBehind(d, s, rest);
      [s[0]] + rest
  }

  /** `sorted(keys)`: the keys in ascending date order, the same keys as
      often as before. */
  function SortDates(s: seq<Date>): (r: seq<Date>)
    ensures Sorted(r)
    ensures multiset(r) == multiset(s)
  {
    if s == [] then []
    else
      assert s == s[..|s| - 1] + [s[|s| - 1]];
      Insert(s[|s| - 1], SortDates(s[..|s| - 1]))
  }

  /** Sorting keys that have no repeats gives strictly ascending keys. */
  lemma SortedDistinctIncreasing(s: seq<Date>)
    requires NoDuplicates(s)
    ensures StrictlyIncreasing(SortDates(s))
  {
    var r := SortDates(s);
    NoDuplicatesPermutation(s, r);
  }

  /** `sorted(daily_forecasts.keys())[:5]`. */
  function ShownDates(samples: seq<Sample>, dateOf: int -> Date): (r: seq<Date>)
    ensures |r| <= ForecastDays && Sorted(r)
  {
    var sorted := SortDates(Distinct(DatesOf(samples, dateOf)));
    sorted[..Min(|sorted|, ForecastDays)]
  }

  /** The days shown are at most five distinct date keys of the samples, in
      ascending order; there are five of them, or all of them if there are
      fewer; and every date key left out is later than every one shown. */
  lemma ShownDatesSpec(samples: seq<Sample>, dateOf: int -> Date)
    ensures |ShownDates(samples, dateOf)| == Min(|Distinct(DatesOf(samples, dateOf))|, ForecastDays)
    ensures StrictlyIncreasing(ShownDates(samples, dateOf))
    ensures forall d :: d in ShownDates(samples, dateOf) ==> d in DatesOf(samples, dateOf)
    ensures forall d, i ::
      (d in DatesOf(samples, dateOf) && d !in ShownDates(samples, dateOf) && 0 <= i < |ShownDates(samples, dateOf)|)
      ==> Before(ShownDates(samples, dateOf)[i], d)
    ensures samples == [] ==> ShownDates(samples, dateOf) == []
  {
    var keys := Distinct(DatesOf(samples, dateOf));
    var sorted := SortDates(keys);
    var shown := ShownDates(samples, dateOf);
    assert |sorted| == |keys| by {
      assert |multiset(sorted)| == |multiset(keys)|;
    }
    SortedDistinctIncreasing(keys);
    assert shown == sorted[..Min(|sorted|, ForecastDays)];
    forall d | d in shown
      ensures d in DatesOf(samples, dateOf)
    {
      assert d in sorted;
      assert d in multiset(keys);
    }
    forall d, i | d in DatesOf(samples, dateOf) && d !in shown && 0 <= i < |shown|
      ensures Before(shown[i], d)
    {
      assert d in multiset(sorted);
      var j :| 0 <= j < |sorted| && sorted[j] == d;
      assert j >= |shown|;
      assert NotAfter(sorted[i], sorted[j]);
    }
  }

  // ---------------------------------------------------------------------
  // The per-day summary

  /** `max(temps)`. */
  function MaxOf(s: seq<int>): (r: int)
    requires s != []
    ensures r in s
    ensures forall i :: 0 <= i < |s| ==> s[i] <= r
  {
    if |s| == 1 then s[0]
    else
      var m := MaxOf(s[..|s| - 1]);
      assert forall i :: 0 <= i < |s| - 1 ==> s[..|s| - 1][i] == s[i];
      if s[|s| - 1] > m then s[|s| - 1] else m
  }

  /** `min(temps)`. */
  function MinOf(s: seq<int>): (r: int)
    requires s != []
    ensures r in s
    ensures forall i :: 0 <= i < |s| ==> r <= s[i]
  {
    if |s| == 1 then s[0]
    else
      var m := MinOf(s[..|s| - 1]);
      assert forall i :: 0 <= i < |s| - 1 ==> s[..|s| - 1][i] == s[i];
      if s[|s| - 1] < m then s[|s| - 1] else m
  }

  /** `max(cands, key=xs.count)`: the first candidate, in the order given,
      whose number of occurrences in `xs` is largest. */
  function MaxByCount<T(==,!new)>(cands: seq<T>, xs: seq<T>): (r: T)
    requires cands != []
    ensures r in cands
    ensures forall c :: c in cands ==> multiset(xs)[c] <= multiset(xs)[r]
  {
    if |cands| == 1 then cands[0]
    else
      var best := MaxByCount(cands[..|cands| - 1], xs);
      var c := cands[|cands| - 1];
      assert cands == cands[..|cands| - 1] + [c];
      if multiset(xs)[c] > multiset(xs)[best] then c else best
  }

  /** `max(set(xs), key=xs.count)`. The set is enumerated here in first-seen
      order; the contract holds whatever order the set yields. */
  function Mode(xs: seq<string>): (r: string)
    requires xs != []
    ensures r in xs
    ensures forall y :: y in xs ==> multiset(xs)[y] <= multiset(xs)[r]
  {
    MaxByCount(Distinct(xs), xs)
  }

  /** A value occurring strictly more often than every other is the mode. */
  lemma ModeUnique(xs: seq<string>, c: string)
    requires c in xs
    requires forall y :: y in xs && y != c ==> multiset(xs)[y] < multiset(xs)[c]
    ensures Mode(xs) == c
  {
  }

  /** A day with conditions Clear, Clear, Rain is summarised as Clear. */
  lemma ModeExample()
    ensures Mode(["Clear", "Clear", "Rain"]) == "Clear"
  {
    var xs := ["Clear", "Clear", "Rain"];
    assert xs == ["Clear"] + ["Clear"] + ["Rain"];
    assert multiset(xs)["Clear"] == 2;
    assert multiset(xs)["Rain"] == 1;
    ModeUnique(xs, "Clear");
  }

  /** The card for one day, computed from its bucket. */
  function Summarize(key: Date, b: DayBucket): (r: DaySummary)
    requires b.temps != [] && b.conditions != [] && b.icons != []
    ensures r.key == key && r.date == b.date
    ensures r.low <= r.high && r.high in b.temps && r.low in b.temps
    ensures r.condition in b.conditions && r.icon in b.icons
  {
    DaySummary(key, b.date, MaxOf(b.temps), MinOf(b.temps), Mode(b.conditions), Mode(b.icons))
  }

  /** The card for day `d`. */
  function SummaryOn(samples: seq<Sample>, dateOf: int -> Date, d: Date): (r: DaySummary)
    requires d in DatesOf(samples, dateOf)
    ensures r.key == d
  {
    SamplesOnNonEmpty(samples, dateOf, d);
    Summarize(d, BucketOf(SamplesOn(samples, dateOf, d)))
  }

  /** The card for day `d`: its high and low bound every temperature of the
      day and are temperatures of the day; its condition and icon are the
      condition and icon of some sample of the day and occur at least as
      often as any other; its timestamp is that of the day's first sample. */
  lemma SummaryOnSpec(samples: seq<Sample>, dateOf: int -> Date, d: Date)
    requires d in DatesOf(samples, dateOf)
    ensures SamplesOn(samples, dateOf, d) != []
    ensures SummaryOn(samples, dateOf, d).date == SamplesOn(samples, dateOf, d)[0].dt
    ensures forall x :: x in samples && dateOf(x.dt) == d ==>
      SummaryOn(samples, dateOf, d).low <= x.temp <= SummaryOn(samples, dateOf, d).high
    ensures exists x :: x in samples && dateOf(x.dt) == d && x.temp == SummaryOn(samples, dateOf, d).high
    ensures exists x :: x in samples && dateOf(x.dt) == d && x.temp == SummaryOn(samples, dateOf, d).low
    ensures exists x :: x in samples && dateOf(x.dt) == d && x.condition == SummaryOn(samples, dateOf, d).condition
    ensures exists x :: x in samples && dateOf(x.dt) == d && x.icon == SummaryOn(samples, dateOf, d).icon
    ensures forall x :: x in samples && dateOf(x.dt) == d ==>
      multiset(Conditions(SamplesOn(samples, dateOf, d)))[x.condition]
        <= multiset(Conditions(SamplesOn(samples, dateOf, d)))[SummaryOn(samples, dateOf, d).condition]
    ensures forall x :: x in samples && dateOf(x.dt) == d ==>
      multiset(Icons(SamplesOn(samples, dateOf, d)))[x.icon]
        <= multiset(Icons(SamplesOn(samples, dateOf, d)))[SummaryOn(samples, dateOf, d).icon]
  {
    SamplesOnNonEmpty(samples, dateOf, d);
    SummaryFacts(SamplesOn(samples, dateOf, d), SummaryOn(samples, dateOf, d));
  }

  lemma SummaryFacts(ss: seq<Sample>, r: DaySummary)
    requires ss != []
    requires r == Summarize(r.key, BucketOf(ss))
    ensures forall x :: x in ss ==> r.low <= x.temp <= r.high
    ensures exists x :: x in ss && x.temp == r.high
    ensures exists x :: x in ss && x.temp == r.low
    ensures exists x :: x in ss && x.condition == r.condition
    ensures exists x :: x in ss && x.icon == r.icon
    ensures forall x :: x in ss ==> multiset(Conditions(ss))[x.condition] <= multiset(Conditions(ss))[r.condition]
    ensures forall x :: x in ss ==> multiset(Icons(ss))[x.icon] <= multiset(Icons(ss))[r.icon]
  {
    var temps, conds, icons := Temps(ss), Conditions(ss), Icons(ss);
    forall x | x in ss
      ensures r.low <= x.temp <= r.high
      ensures x.condition in conds && x.icon in icons
    {
      var i :| 0 <= i < |ss| && ss[i] == x;
      assert temps[i] == x.temp && conds[i] == x.condition && icons[i] == x.icon;
    }
    var h :| 0 <= h < |temps| && temps[h] == r.high;
    assert ss[h] in ss;
    var l :| 0 <= l < |temps| && temps[l] == r.low;
    assert ss[l] in ss;
    var c :| 0 <= c < |conds| && conds[c] == r.condition;
    assert ss[c] in ss;
    var k :| 0 <= k < |icons| && icons[k] == r.icon;
    assert ss[k] in ss;
  }

  // ---------------------------------------------------------------------
  // The whole aggregation

  /** The forecast cards: one per shown day, in the order of the shown days. */
  function Forecast(samples: seq<Sample>, dateOf: int -> Date): (r: seq<DaySummary>)
    ensures |r| == |ShownDates(samples, dateOf)| <= ForecastDays
    ensures forall i :: 0 <= i < |r| ==> r[i].key == ShownDates(samples, dateOf)[i]
  {
    var shown := ShownDates(samples, dateOf);
    ShownDatesSpec(samples, dateOf);
    seq(|shown|, i requires 0 <= i < |shown| => SummaryOn(samples, dateOf, shown[i]))
  }

  /** Card `j` of the forecast is the summary of shown day `j`, a date some
      sample has. */
  lemma ForecastAt(samples: seq<Sample>, dateOf: int -> Date, j: int)
    ensures |Forecast(samples, dateOf)| == |ShownDates(samples, dateOf)|
    ensures 0 <= j < |ShownDates(samples, dateOf)| ==>
      ShownDates(samples, dateOf)[j] in DatesOf(samples, dateOf) &&
      Forecast(samples, dateOf)[j] == SummaryOn(samples, dateOf, ShownDates(samples, dateOf)[j])
  {
    ShownDatesSpec(samples, dateOf);
    if 0 <= j < |ShownDates(samples, dateOf)| {
      assert ShownDates(samples, dateOf)[j] in ShownDates(samples, dateOf);
    }
  }

  /** `c` is the card for day `d`. */
  ghost predicate IsCard(samples: seq<Sample>, dateOf: int -> Date, d: Date, c: DaySummary) {
    d in DatesOf(samples, dateOf) && c == SummaryOn(samples, dateOf, d)
  }

  /** A list holding the card of every shown day, in order, is the forecast. */
  lemma ForecastOfCards(samples: seq<Sample>, dateOf: int -> Date, cards: seq<DaySummary>)
    requires |cards| == |ShownDates(samples, dateOf)|
    requires forall k :: 0 <= k < |cards| ==> IsCard(samples, dateOf, ShownDates(samples, dateOf)[k], cards[k])
    ensures cards == Forecast(samples, dateOf)
  {
    ForecastAt(samples, dateOf, 0);
    forall k | 0 <= k < |cards|
      ensures cards[k] == Forecast(samples, dateOf)[k]
    {
      ForecastAt(samples, dateOf, k);
    }
  }

  /** Shown day `j` is a date some sample has. */
  lemma ShownListed(samples: seq<Sample>, dateOf: int -> Date, j: nat)
    requires j < |ShownDates(samples, dateOf)|
    ensures ShownDates(samples, dateOf)[j] in DatesOf(samples, dateOf)
  {
    ShownDatesSpec(samples, dateOf);
    assert ShownDates(samples, dateOf)[j] in ShownDates(samples, dateOf);
  }

  /** Appending the card of the next shown day keeps a list of the cards of
      the shown days so far. */
  lemma AppendCard(samples: seq<Sample>, dateOf: int -> Date, shown: seq<Date>, cards: seq<DaySummary>, card: DaySummary)
    requires |cards| < |shown|
    requires forall k :: 0 <= k < |cards| ==> IsCard(samples, dateOf, shown[k], cards[k])
    requires IsCard(samples, dateOf, shown[|cards|], card)
    ensures forall k :: 0 <= k < |cards| + 1 ==> IsCard(samples, dateOf, shown[k], (cards + [card])[k])
  {
  }

  /** The card computed from a day's bucket is that day's card. */
  lemma CardOfBucket(samples: seq<Sample>, dateOf: int -> Date, d: Date, b: DayBucket)
    requires d in DatesOf(samples, dateOf)
    requires SamplesOn(samples, dateOf, d) != [] && b == BucketOf(SamplesOn(samples, dateOf, d))
    ensures b.temps != [] && b.conditions != [] && b.icons != []
    ensures IsCard(samples, dateOf, d, Summarize(d, b))
  {
  }

  /** `display_forecast` up to the cards: group the samples, sort the keys,
      keep the first five and summarise each kept day. */
  method DisplayForecast(samples: seq<Sample>, dateOf: int -> Date) returns (cards: seq<DaySummary>)
    ensures cards == Forecast(samples, dateOf)
  {
    var days, order := GroupByDay(samples, dateOf);
    var sorted := SortDates(order);
    var shown := sorted[..Min(|sorted|, ForecastDays)];
    assert shown == ShownDates(samples, dateOf);
    cards := [];
    for j := 0 to |shown|
      invariant |cards| == j
      invariant forall k :: 0 <= k < j ==> IsCard(samples, dateOf, shown[k], cards[k])
    {
      var dateKey := shown[j];
      ShownListed(samples, dateOf, j);
      var dayData := days[dateKey];
      CardOfBucket(samples, dateOf, dateKey, dayData);
      var high := MaxOf(dayData.temps);
      var low := MinOf(dayData.temps);
      var condition := Mode(dayData.conditions);
      var icon := Mode(dayData.icons);
      var card := DaySummary(dateKey, dayData.date, high, low, condition, icon);
      assert card == Summarize(dateKey, dayData);
      AppendCard(samples, dateOf, shown, cards, card);
      cards := cards + [card];
    }
    ForecastOfCards(samples, dateOf, cards);
  }

  /** Some card of `cards` is for day `d`. */
  predicate Shows(cards: seq<DaySummary>, d: Date) {
    exists k :: 0 <= k < |cards| && cards[k].key == d
  }

  /** The cards are exactly as many as the shown days, and card `k` is for
      shown day `k`. */
  lemma ForecastKeys(samples: seq<Sample>, dateOf: int -> Date)
    ensures |Forecast(samples, dateOf)| == |ShownDates(samples, dateOf)|
    ensures forall k :: 0 <= k < |Forecast(samples, dateOf)| ==>
      Forecast(samples, dateOf)[k].key == ShownDates(samples, dateOf)[k]
  {
    ForecastAt(samples, dateOf, 0);
    forall k | 0 <= k < |Forecast(samples, dateOf)|
      ensures Forecast(samples, dateOf)[k].key == ShownDates(samples, dateOf)[k]
    {
      ForecastAt(samples, dateOf, k);
    }
  }

  /** Cards keyed by the shown days in order inherit the shown days' order,
      and a date without a card is a date left out. */
  lemma CardsFollowDays(cards: seq<DaySummary>, shown: seq<Date>)
    requires |cards| == |shown|
    requires forall k :: 0 <= k < |cards| ==> cards[k].key == shown[k]
    ensures forall i, j :: 0 <= i < j < |cards| && StrictlyIncreasing(shown) ==> Before(cards[i].key, cards[j].key)
    ensures forall d :: !Shows(cards, d) ==> d !in shown
  {
    forall d | d in shown
      ensures Shows(cards, d)
    {
      var k :| 0 <= k < |shown| && shown[k] == d;
      assert cards[k].key == d;
    }
  }

  /** The forecast has at most five cards, one per shown day, in strictly
      ascending date order, each for a date some sample has, and every
      sample date left without a card is later than every date with one. An
      empty sample list gives no cards. */
  lemma ForecastCards(samples: seq<Sample>, dateOf: int -> Date)
    ensures |Forecast(samples, dateOf)| == Min(|Distinct(DatesOf(samples, dateOf))|, ForecastDays)
    ensures forall i, j :: 0 <= i < j < |Forecast(samples, dateOf)| ==>
      Before(Forecast(samples, dateOf)[i].key, Forecast(samples, dateOf)[j].key)
    ensures forall i :: 0 <= i < |Forecast(samples, dateOf)| ==>
      Forecast(samples, dateOf)[i].key in DatesOf(samples, dateOf)
    ensures forall x, i ::
      (x in samples && 0 <= i < |Forecast(samples, dateOf)| && !Shows(Forecast(samples, dateOf), dateOf(x.dt)))
      ==> Before(Forecast(samples, dateOf)[i].key, dateOf(x.dt))
    ensures samples == [] ==> Forecast(samples, dateOf) == []
  {
    ShownDatesSpec(samples, dateOf);
    ForecastKeys(samples, dateOf);
    var shown := ShownDates(samples, dateOf);
    var r := Forecast(samples, dateOf);
    CardsFollowDays(r, shown);
    forall i | 0 <= i < |r|
      ensures r[i].key in DatesOf(samples, dateOf)
    {
      assert shown[i] in shown;
    }
    forall x, i | x in samples && 0 <= i < |r| && !Shows(r, dateOf(x.dt))
      ensures Before(r[i].key, dateOf(x.dt))
    {
      DateListed(samples, dateOf, x);
    }
  }
}
