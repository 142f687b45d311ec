/**
 * The weather tool (`get_weather_forecast`) after its HTTP request: the
 * decoded `list` of three-hourly forecast items is summarised into one
 * entry per day, at most five days, joined with `" | "`.
 */
module Forecast {
  import opened Text

  /** One three-hourly item of the payload: its `weather[0].main` and its `main.temp` as printed. */
  datatype Slot = Slot(condition: string, temperature: string)

  /** What the request produced: the decoded `list`, or the text of the exception it raised. */
  datatype WeatherResponse = Fetched(list: seq<Slot>) | FetchFailed(message: string)

  /** The service forecasts five days ahead. */
  const MaxDays := 5

  /** Items per day: one every three hours. */
  const SlotsPerDay := 8

  const Delimiter := " | "
  const Unavailable := "Could not get forecast"
  const ErrorPrefix := "Error fetching weather: "

  /** How many days `range(min(days, 5))` visits: none for a non-positive count. */
  function Horizon(days: int): nat {
    if days <= 0 then 0 else if days < MaxDays then days else MaxDays
  }

  /** The text for day `i + 1`: the item at `i * 8`, or the fallback when the list is too short. */
  function DayEntry(list: seq<Slot>, i: nat): string {
    "Day " + NatToString(i + 1) + ": "
      + if i * SlotsPerDay < |list|
        then list[i * SlotsPerDay].condition + ", " + list[i * SlotsPerDay].temperature + "°C"
        else Unavailable
  }

  /** The entries of the summary, one per day of the horizon. */
  function Entries(list: seq<Slot>, days: int): seq<string> {
    seq(Horizon(days), i requires 0 <= i => DayEntry(list, i))
  }

  /** The tool's text for a response. */
  function Report(response: WeatherResponse, days: int): string {
    match response
    case Fetched(list) => Join(Entries(list, days), Delimiter)
    case FetchFailed(message) => ErrorPrefix + message
  }

  /** The loop of `get_weather_forecast` that appends one entry per day to `forecasts`. */
  method CollectForecasts(list: seq<Slot>, days: int) returns (forecasts: seq<string>)
    ensures forecasts == Entries(list, days)
  {
    forecasts := [];
    var maxDays := if days < MaxDays then days else MaxDays;
    var i := 0;
    while i < maxDays
      invariant 0 <= i && (i <= maxDays || i == 0)
      invariant |forecasts| == i
      invariant forall k :: 0 <= k < i ==> forecasts[k] == DayEntry(list, k)
    {
      var entry;
      if i * SlotsPerDay < |list| {
        var forecast := list[i * SlotsPerDay];
        entry := "Day " + NatToString(i + 1) + ": " + forecast.condition + ", " + forecast.temperature + "°C";
      } else {
        entry := "Day " + NatToString(i + 1) + ": " + Unavailable;
      }
      forecasts := forecasts + [entry];
      i := i + 1;
    }
  }

  /** `get_weather_forecast` once the request has been made. */
  method GetWeatherForecast(response: WeatherResponse, days: int) returns (text: string)
    ensures text == Report(response, days)
  {
    match response
    case FetchFailed(message) =>
      text := ErrorPrefix + message;
    case Fetched(list) =>
      var forecasts := CollectForecasts(list, days);
      text := Join(forecasts, Delimiter);
  }

  /** No item text holds the delimiter's bar. */
  predicate BarFree(list: seq<Slot>) {
    forall s <- list :: '|' !in s.condition && '|' !in s.temperature
  }

  /** An entry starts with `Day`, ends with `C` or `t`, and holds a bar only if its item does. */
  lemma EntryShape(list: seq<Slot>, i: nat)
    requires BarFree(list)
    ensures Trimmed(DayEntry(list, i)) && '|' !in DayEntry(list, i)
  {
    var entry := DayEntry(list, i);
    var head := "Day " + NatToString(i + 1) + ": ";
    assert entry[0] == 'D';
    assert forall c <- head :: c != '|';
    if i * SlotsPerDay < |list| {
      var slot := list[i * SlotsPerDay];
      assert slot in list;
      assert entry == head + slot.condition + ", " + slot.temperature + "°C";
      assert entry[|entry| - 1] == 'C';
    } else {
      assert entry == head + Unavailable;
      assert entry[|entry| - 1] == 't';
    }
  }

  /**
   * The summary has one `" | "`-separated entry per day of the horizon:
   * splitting it on the bar and stripping the pieces gives the entries back,
   * provided no item text holds a bar itself.
   */
  lemma SummaryReadsBack(list: seq<Slot>, days: int)
    requires days >= 1 && BarFree(list)
    ensures StripAll(Split(Report(Fetched(list), days), '|')) == Entries(list, days)
    ensures |Split(Report(Fetched(list), days), '|')| == if days < MaxDays then days else MaxDays
  {
    var entries := Entries(list, days);
    assert SeparablePieces(entries, '|') by {
      forall p <- entries ensures Trimmed(p) && '|' !in p {
        var i :| 0 <= i < |entries| && entries[i] == p;
        EntryShape(list, i);
      }
    }
    var none: string := [];
    assert none + Join(entries, Delimiter) == Join(entries, Delimiter);
    assert Delimiter == " " + ['|'] + " ";
    SplitPaddedJoin(none, entries, " ", '|', " ");
  }

  /** With no day to forecast the summary is empty. */
  lemma NoDaysNoSummary(list: seq<Slot>, days: int)
    requires days <= 0
    ensures Report(Fetched(list), days) == ""
  {
  }

  /**
   * Day `k` reads the item at `(k - 1) * 8` exactly when the list reaches
   * that far; otherwise it says the forecast could not be had.
   */
  lemma DayReadsItsSlot(list: seq<Slot>, days: int, k: nat)
    requires 1 <= k <= Horizon(days)
    ensures (k - 1) * SlotsPerDay < |list| ==>
      Entries(list, days)[k - 1] == "Day " + NatToString(k) + ": "
        + list[(k - 1) * SlotsPerDay].condition + ", " + list[(k - 1) * SlotsPerDay].temperature + "°C"
    ensures (k - 1) * SlotsPerDay >= |list| ==>
      Entries(list, days)[k - 1] == "Day " + NatToString(k) + ": " + Unavailable
  {
  }

  /** A failed request yields the error text and no summary: the two are told apart by their first word. */
  lemma ErrorsAreMarked(response: WeatherResponse, days: int)
    ensures "Error" <= Report(response, days) <==> response.FetchFailed?
  {
    var text := Report(response, days);
    if response.Fetched? {
      if days >= 1 {
        var entries := Entries(response.list, days);
        var first := DayEntry(response.list, 0);
        assert entries[0] == first;
        JoinStartsWithFirst(entries, Delimiter);
        assert text[..|first|] == first;
        assert |first| >= 7 && first[0] == 'D';
        assert text[0] == 'D';
      } else {
        NoDaysNoSummary(response.list, days);
      }
    } else {
      assert text == ErrorPrefix + response.message;
      assert text[..5] == ErrorPrefix[..5];
    }
  }

}

/** The payload of the test suite: 24 items, with the ones at 0, 8 and 16 set apart. */
module ForecastExamples {
  import opened Text
  import opened Forecast

  predicate TestPayload(list: seq<Slot>) {
    && |list| == 24
    && list[0] == Slot("Clear", "25.5")
    && list[8] == Slot("Rain", "18.2")
    && list[16] == Slot("Clouds", "22.0")
  }

  lemma FirstDay(list: seq<Slot>)
    requires TestPayload(list)
    ensures DayEntry(list, 0) == "Day 1: Clear, 25.5°C"
  {
    assert NatToString(1) == "1";
  }

  lemma SecondDay(list: seq<Slot>)
    requires TestPayload(list)
    ensures DayEntry(list, 1) == "Day 2: Rain, 18.2°C"
  {
    assert NatToString(2) == "2";
  }

  lemma ThirdDay(list: seq<Slot>)
    requires TestPayload(list)
    ensures DayEntry(list, 2) == "Day 3: Clouds, 22.0°C"
  {
    assert NatToString(3) == "3";
  }

  /** Three days over the test payload read the items at 0, 8 and 16, in order. */
  lemma TestSuiteForecast(list: seq<Slot>)
    requires TestPayload(list)
    ensures Report(Fetched(list), 3)
         == "Day 1: Clear, 25.5°C" + Delimiter + "Day 2: Rain, 18.2°C" + Delimiter + "Day 3: Clouds, 22.0°C"
  {
    FirstDay(list);
    SecondDay(list);
    ThirdDay(list);
    var entries := Entries(list, 3);
    assert entries == [DayEntry(list, 0), DayEntry(list, 1), DayEntry(list, 2)];
    JoinThree(entries[0], entries[1], entries[2], Delimiter);
  }

  /** A list too short for day two gives the fallback for every later day. */
  lemma ShortPayload(slot: Slot)
    ensures Entries([slot], 2)[1] == "Day 2: " + Unavailable
  {
    assert NatToString(2) == "2";
  }
}
