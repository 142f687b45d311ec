/**
 * The activities stage (`activities_node`) and the search tool it calls
 * (`find_points_of_interest`): one web search per interest, the query
 * narrowed by the activity preference, the results paired with their
 * interests in order. The search engine is an input here.
 */
module Activities {
  import opened Wrappers
  import opened Text
  import opened Graph

  /** What one web search gave: its result text, or the text of the exception it raised. */
  datatype SearchOutcome = Found(text: string) | SearchFailed(message: string)

  /** The search engine, from query to outcome. */
  type Search = string -> SearchOutcome

  const IndoorModifier := "indoor "
  const OutdoorModifier := "outdoor "

  /** The query the tool sends for `category` in `city`. */
  function Query(city: string, category: string): string {
    "best " + category + " in " + city
  }

  /** `find_points_of_interest`: the result text, or an error text naming the category. */
  function FindPointsOfInterest(search: Search, city: string, category: string): string {
    match search(Query(city, category))
    case Found(text) => text
    case SearchFailed(message) => "Error searching for " + category + ": " + message
  }

  /** `[i.strip() for i in interests.split(',')]`. */
  function Interests(text: string): seq<string> {
    StripAll(Split(text, ','))
  }

  /** The prefix the preference puts before every category; an absent preference counts as BOTH. */
  function Modifier(preference: Option<Preference>): string {
    match preference
    case Some(Indoor) => IndoorModifier
    case Some(Outdoor) => OutdoorModifier
    case _ => ""
  }

  /** The category searched for one interest. */
  function Category(modifier: string, interest: string): string {
    if modifier != "" then modifier + interest else interest
  }

  /** The entry listed for one interest and its search result. */
  function Entry(interest: string, result: string): string {
    Title(interest) + ": " + result
  }

  /** The search tasks once awaited: each interest with the result of its search, in the order of the interests. */
  function Searched(search: Search, city: string, interests: seq<string>, preference: Option<Preference>): seq<(string, string)> {
    seq(|interests|, i requires 0 <= i < |interests| =>
      (interests[i], FindPointsOfInterest(search, city, Category(Modifier(preference), interests[i]))))
  }

  /** `[f"{interest.title()}: {result}" for (interest, _), result in zip(search_tasks, results)]`. */
  function Listing(searched: seq<(string, string)>): seq<string> {
    seq(|searched|, k requires 0 <= k < |searched| => Entry(searched[k].0, searched[k].1))
  }

  /** The `activities` list: each interest, title-cased, with its result. */
  function ActivityList(search: Search, city: string, interests: seq<string>, preference: Option<Preference>): seq<string> {
    Listing(Searched(search, city, interests, preference))
  }

  /** The counter after one more pass: the previous count, 0 when absent, plus one. */
  function NextIteration(state: GraphState): int {
    state.searchIterations.GetOr(0) + 1
  }

  /**
   * The partial update the stage returns: `activities` and
   * `search_iterations`, nothing else. The stage reads `city` and
   * `interests` with `[]`, so both must be set.
   */
  function ActivitiesUpdate(search: Search, state: GraphState): (update: GraphState)
    requires state.city.Some? && state.interests.Some?
    ensures update.activities.Some? && update.searchIterations.Some?
    ensures update.activities.value
         == ActivityList(search, state.city.value, Interests(state.interests.value), state.activityPreference)
    ensures update.searchIterations.value == state.searchIterations.GetOr(0) + 1
    ensures update.userRequest.None? && update.city.None? && update.days.None? && update.interests.None?
    ensures update.weatherData.None? && update.activityPreference.None? && update.finalItinerary.None?
  {
    NoFields.(
      activities := Some(ActivityList(search, state.city.value, Interests(state.interests.value), state.activityPreference)),
      searchIterations := Some(NextIteration(state)))
  }

  /**
   * The loop of `activities_node` that pairs each interest with its search
   * task; awaiting them all at once keeps their order, so each pair holds
   * the interest and its result.
   */
  method SearchAll(search: Search, city: string, interestsList: seq<string>, preference: Option<Preference>)
    returns (searchTasks: seq<(string, string)>)
    ensures searchTasks == Searched(search, city, interestsList, preference)
  {
    var modifier := "";
    if preference == Some(Indoor) {
      modifier := IndoorModifier;
    } else if preference == Some(Outdoor) {
      modifier := OutdoorModifier;
    }
    assert modifier == Modifier(preference);
    searchTasks := [];
    for n := 0 to |interestsList|
      invariant |searchTasks| == n
      invariant forall k :: 0 <= k < n ==>
        searchTasks[k] == (interestsList[k], FindPointsOfInterest(search, city, Category(modifier, interestsList[k])))
    {
      var interest := interestsList[n];
      var searchCategory := if modifier != "" then modifier + interest else interest;
      var task := FindPointsOfInterest(search, city, searchCategory);
      searchTasks := searchTasks + [(interest, task)];
    }
  }

  /** `activities_node`: search every interest, then list each interest, title-cased, with its result. */
  method ActivitiesNode(search: Search, state: GraphState) returns (update: GraphState)
    requires state.city.Some? && state.interests.Some?
    ensures update == ActivitiesUpdate(search, state)
  {
    var currentIteration := state.searchIterations.GetOr(0) + 1;
    var interestsList := Interests(state.interests.value);
    var searchTasks := SearchAll(search, state.city.value, interestsList, state.activityPreference);
    var activities := Listing(searchTasks);
    assert activities == ActivityList(search, state.city.value, interestsList, state.activityPreference);
    assert currentIteration == NextIteration(state);
    update := NoFields.(activities := Some(activities), searchIterations := Some(currentIteration));
  }

  /** One entry per comma-separated interest. */
  lemma EntryPerInterest(search: Search, city: string, text: string, preference: Option<Preference>)
    ensures |ActivityList(search, city, Interests(text), preference)| == multiset(text)[','] + 1
  {
  }

  /**
   * Entry `i` is interest `i` (its letters, up to case), then `": "`, then
   * the result of the search made for interest `i`.
   */
  lemma EntryNamesInterest(search: Search, city: string, interests: seq<string>, preference: Option<Preference>, i: nat)
    requires i < |interests|
    ensures var entry := ActivityList(search, city, interests, preference)[i];
            && |entry| >= |interests[i]| + 2
            && Lower(entry[..|interests[i]|]) == Lower(interests[i])
            && entry[|interests[i]|..|interests[i]| + 2] == ": "
            && entry[|interests[i]| + 2..] == FindPointsOfInterest(search, city, Category(Modifier(preference), interests[i]))
  {
    var interest := interests[i];
    var result := FindPointsOfInterest(search, city, Category(Modifier(preference), interest));
    var entry := ActivityList(search, city, interests, preference)[i];
    assert entry == Title(interest) + ": " + result;
    assert entry[..|interest|] == Title(interest);
    TitleKeepsLetters(interest);
  }

  /** The search for an interest is narrowed to indoor or outdoor places by the preference; otherwise the bare interest is searched. */
  lemma QueryFollowsPreference(city: string, interest: string, preference: Option<Preference>)
    ensures preference == Some(Indoor) ==> Query(city, Category(Modifier(preference), interest)) == "best indoor " + interest + " in " + city
    ensures preference == Some(Outdoor) ==> Query(city, Category(Modifier(preference), interest)) == "best outdoor " + interest + " in " + city
    ensures preference.None? || preference == Some(Both) ==> Query(city, Category(Modifier(preference), interest)) == "best " + interest + " in " + city
  {
    var query := Query(city, Category(Modifier(preference), interest));
    if preference == Some(Indoor) {
      assert query == "best " + (IndoorModifier + interest) + " in " + city;
      assert "best " + (IndoorModifier + interest) == "best indoor " + interest;
    } else if preference == Some(Outdoor) {
      assert query == "best " + (OutdoorModifier + interest) + " in " + city;
      assert "best " + (OutdoorModifier + interest) == "best outdoor " + interest;
    }
  }

  /**
   * A failed search spoils only its own entry: with two search engines that
   * agree on every query but one, the lists differ at most in the entry of
   * that query's interest, and that entry carries an error text naming the
   * category.
   */
  lemma FailureIsIsolated(good: Search, bad: Search, city: string, interests: seq<string>, preference: Option<Preference>, j: nat)
    requires j < |interests|
    requires var failing := Query(city, Category(Modifier(preference), interests[j]));
             && bad(failing).SearchFailed?
             && forall q :: q != failing ==> bad(q) == good(q)
    ensures var before := ActivityList(good, city, interests, preference);
            var after := ActivityList(bad, city, interests, preference);
            && |after| == |before|
            && (forall i :: 0 <= i < |before| && interests[i] != interests[j] ==> after[i] == before[i])
            && after[j] == Entry(interests[j],
                 "Error searching for " + Category(Modifier(preference), interests[j]) + ": "
                   + bad(Query(city, Category(Modifier(preference), interests[j]))).message)
  {
    var before := ActivityList(good, city, interests, preference);
    var after := ActivityList(bad, city, interests, preference);
    forall i | 0 <= i < |before| && interests[i] != interests[j]
      ensures after[i] == before[i]
    {
      var modifier := Modifier(preference);
      var ci, cj := Category(modifier, interests[i]), Category(modifier, interests[j]);
      if Query(city, ci) == Query(city, cj) {
        QueryInjective(city, ci, cj);
        CategoryInjective(modifier, interests[i], interests[j]);
        assert false;
      }
    }
  }

  lemma CategoryInjective(modifier: string, a: string, b: string)
    requires Category(modifier, a) == Category(modifier, b)
    ensures a == b
  {
    if modifier != "" {
      assert a == (modifier + a)[|modifier|..];
      assert b == (modifier + b)[|modifier|..];
    }
  }

  lemma QueryInjective(city: string, a: string, b: string)
    requires Query(city, a) == Query(city, b)
    ensures a == b
  {
    var qa, qb := Query(city, a), Query(city, b);
    assert a == qa[5..|qa| - |city| - 4];
    assert b == qb[5..|qb| - |city| - 4];
  }

  /**
   * Merging an update that carries only `activities` and `search_iterations`
   * leaves every other field of the record as it was.
   */
  lemma OnlyActivitiesChange(state: GraphState, activities: seq<string>, iterations: int)
    ensures Merge(state, NoFields.(activities := Some(activities), searchIterations := Some(iterations)))
         == state.(activities := Some(activities), searchIterations := Some(iterations))
  {
  }

  /** Interests written as a comma-and-space list are read back one by one. */
  lemma InterestsRoundTrip(interests: seq<string>)
    requires interests != [] && SeparablePieces(interests, ',')
    ensures Interests(Join(interests, ", ")) == interests
  {
    var none: string := [];
    assert none + Join(interests, ", ") == Join(interests, ", ");
    assert ", " == none + [','] + " ";
    SplitPaddedJoin(none, interests, none, ',', " ");
  }
}

/** The interests of the test suite, `museums, cafes`, searched in Paris on a rainy forecast. */
module ActivitiesExamples {
  import opened Wrappers
  import opened Text
  import opened Graph
  import opened Activities

  lemma TestInterests()
    ensures Interests("museums, cafes") == ["museums", "cafes"]
  {
    assert Join(["museums", "cafes"], ", ") == "museums, cafes" by {
      assert ["museums", "cafes"][1..] == ["cafes"];
    }
    assert SeparablePieces(["museums", "cafes"], ',');
    InterestsRoundTrip(["museums", "cafes"]);
  }

  /** A lower-case word is title-cased by capitalising its first letter. */
  lemma TitleWord(s: string)
    requires s != [] && forall c <- s :: 'a' <= c <= 'z'
    ensures Title(s) == [UpperChar(s[0])] + s[1..]
  {
    forall i | 0 <= i < |s|
      ensures Title(s)[i] == ([UpperChar(s[0])] + s[1..])[i]
    {
      TitleAt(s, i);
      assert s[i] in s;
      if i > 0 {
        assert s[i - 1] in s;
      }
    }
  }

  lemma TwoInterests(search: Search, city: string, a: string, b: string, preference: Option<Preference>)
    ensures ActivityList(search, city, [a, b], preference)
         == [Entry(a, FindPointsOfInterest(search, city, Category(Modifier(preference), a))),
             Entry(b, FindPointsOfInterest(search, city, Category(Modifier(preference), b)))]
  {
  }

  lemma ParisIndoorEntries(search: Search)
    ensures ActivityList(search, "Paris", ["museums", "cafes"], Some(Indoor))
         == [Entry("museums", FindPointsOfInterest(search, "Paris", "indoor museums")),
             Entry("cafes", FindPointsOfInterest(search, "Paris", "indoor cafes"))]
  {
    TwoInterests(search, "Paris", "museums", "cafes", Some(Indoor));
    assert Category(IndoorModifier, "museums") == "indoor museums";
    assert Category(IndoorModifier, "cafes") == "indoor cafes";
  }

  /** The two interests of the test suite title-cased in their entries. */
  lemma ParisEntries(museums: string, cafes: string)
    ensures Entry("museums", museums) == "Museums: " + museums
    ensures Entry("cafes", cafes) == "Cafes: " + cafes
  {
    TitleWord("museums");
    TitleWord("cafes");
  }

  /** An indoor preference narrows both searches, and the entries keep the order of the interests. */
  lemma ParisIndoor(search: Search)
    ensures ActivityList(search, "Paris", Interests("museums, cafes"), Some(Indoor))
         == ["Museums: " + FindPointsOfInterest(search, "Paris", "indoor museums"),
             "Cafes: " + FindPointsOfInterest(search, "Paris", "indoor cafes")]
  {
    TestInterests();
    ParisIndoorEntries(search);
    ParisEntries(FindPointsOfInterest(search, "Paris", "indoor museums"), FindPointsOfInterest(search, "Paris", "indoor cafes"));
  }

  lemma MuseumsFail(search: Search)
    requires search("best indoor museums in Paris") == SearchFailed("timeout")
    ensures FindPointsOfInterest(search, "Paris", "indoor museums") == "Error searching for indoor museums: timeout"
  {
    var query := Query("Paris", "indoor museums");
    assert query == "best indoor museums in Paris";
    assert search(query) == SearchFailed("timeout");
  }

  /** A failed search is reported in its own entry, naming the category that was searched. */
  lemma ParisSearchFails(search: Search)
    requires search("best indoor museums in Paris") == SearchFailed("timeout")
    ensures ActivityList(search, "Paris", Interests("museums, cafes"), Some(Indoor))[0]
         == "Museums: " + "Error searching for indoor museums: timeout"
  {
    ParisIndoor(search);
    MuseumsFail(search);
  }
}
