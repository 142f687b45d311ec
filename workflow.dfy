/**
 * The planner's workflow (`TravelAgent._build_graph` and `plan_trip`): parse,
 * weather, decide, activities (repeated while the gate says so), generate,
 * end. One record is threaded through the stages and every stage's partial
 * update is merged into it. Everything the stages ask of the outside world
 * (model replies, the weather service, the search engine) is gathered in a
 * `Services` value.
 */
module Workflow {
  import opened Wrappers
  import opened Graph
  import ParseStage
  import Forecast
  import Decide
  import Activities
  import Gate

  /** The nodes of the graph, and the end. */
  datatype Stage = ParseStep | WeatherStep | DecideStep | ActivitiesStep | GenerateStep | Finished

  /**
   * What the outside world answers during one run: the model's reply to the
   * parse prompt, the weather service's response, the model's reply to the
   * decision prompt, the search engine during pass `n`, the model's verdict
   * at the gate after pass `n`, and the itinerary the model writes.
   */
  datatype Services = Services(
    parseReply: string,
    weather: Forecast.WeatherResponse,
    decideReply: string,
    search: int -> Activities.Search,
    verdict: int -> string,
    itinerary: string)

  /** What a run ends with: the final record, or the error that stopped it. */
  type Outcome = Result<GraphState, ParseStage.ParseError>

  const NoItinerary := "No itinerary generated"

  /** The edges of the graph: `add_edge` and `add_conditional_edges` as declared. */
  function Successors(stage: Stage): set<Stage> {
    match stage
    case ParseStep => {WeatherStep}
    case WeatherStep => {DecideStep}
    case DecideStep => {ActivitiesStep}
    case ActivitiesStep => {ActivitiesStep, GenerateStep}
    case GenerateStep => {Finished}
    case Finished => {}
  }

  /** The number of activities passes the run allows: the cap, but at least one, since the gate is asked only after a pass. */
  function Bound(maxIterations: int): int {
    if maxIterations < 1 then 1 else maxIterations
  }

  /** Activities passes made so far. */
  function Passes(state: GraphState): int {
    state.searchIterations.GetOr(0)
  }

  /** The fields each stage finds set when it runs. */
  predicate Inv(stage: Stage, state: GraphState, maxIterations: int) {
    match stage
    case ParseStep => state.searchIterations.None?
    case WeatherStep =>
      state.city.Some? && state.days.Some? && state.interests.Some? && state.searchIterations.None?
    case DecideStep =>
      state.city.Some? && state.days.Some? && state.interests.Some? && state.searchIterations.None?
      && state.weatherData.Some?
    case ActivitiesStep =>
      state.city.Some? && state.days.Some? && state.interests.Some? && state.weatherData.Some?
      && state.activityPreference.Some? && 0 <= Passes(state) < Bound(maxIterations)
    case GenerateStep => true
    case Finished => true
  }

  /** Steps left, at most: the activities stage can run only as often as passes remain under the bound. */
  function Measure(stage: Stage, state: GraphState, maxIterations: int): int {
    var bound := Bound(maxIterations);
    match stage
    case ParseStep => bound + 4
    case WeatherStep => bound + 3
    case DecideStep => bound + 2
    case ActivitiesStep => 1 + bound - Passes(state)
    case GenerateStep => 1
    case Finished => 0
  }

  /** The record after the parse stage, once its reply has been parsed into `update`, or the error that stops the run. */
  function AfterParse(state: GraphState, update: Result<GraphState, ParseStage.ParseError>): (r: Result<GraphState, ParseStage.ParseError>)
    requires state.searchIterations.None?
    requires update.Ok? ==> update.value.city.Some? && update.value.days.Some? && update.value.interests.Some?
    requires update.Ok? ==> update.value.searchIterations.None?
    ensures r.Ok? <==> update.Ok?
    ensures r.Err? ==> r.error == update.error
    ensures r.Ok? ==> r.value.city.Some? && r.value.days.Some? && r.value.interests.Some?
    ensures r.Ok? ==> r.value.searchIterations.None?
    ensures r.Ok? && update.value == NoFields.(city := update.value.city, days := update.value.days, interests := update.value.interests)
      ==> r.value == state.(city := update.value.city, days := update.value.days, interests := update.value.interests)
  {
    match update
    case Err(e) => Err(e)
    case Ok(fields) => Ok(Merge(state, fields))
  }

  /** The record after the weather stage. */
  function AfterWeather(state: GraphState, services: Services): (next: GraphState)
    requires Inv(WeatherStep, state, 0)
    ensures Inv(DecideStep, next, 0)
    ensures next == state.(weatherData := Some(Forecast.Report(services.weather, state.days.value)))
  {
    Merge(state, NoFields.(weatherData := Some(Forecast.Report(services.weather, state.days.value))))
  }

  /** The record after the decision stage. */
  function AfterDecide(state: GraphState, services: Services): (next: GraphState)
    requires Inv(DecideStep, state, 0)
    ensures next.city.Some? && next.days.Some? && next.interests.Some? && next.weatherData.Some?
    ensures next.activityPreference.Some? && next.searchIterations.None?
    ensures next == state.(activityPreference := Some(Decide.Coerce(services.decideReply)))
  {
    Merge(state, Decide.DecideUpdate(services.decideReply))
  }

  /** The record after one activities pass: one more pass counted, every field the next stages read still set. */
  function AfterActivities(state: GraphState, services: Services): (next: GraphState)
    requires state.city.Some? && state.interests.Some?
    ensures next.searchIterations.Some? && next.searchIterations.value == Passes(state) + 1
    ensures next.activities.Some?
    ensures state.days.Some? ==> next.days.Some?
    ensures state.weatherData.Some? ==> next.weatherData.Some?
    ensures state.activityPreference.Some? ==> next.activityPreference.Some?
    ensures next.city.Some? && next.interests.Some?
  {
    Merge(state, Activities.ActivitiesUpdate(services.search(Activities.NextIteration(state)), state))
  }

  /**
   * The whole record after a pass: the activity list of this pass, searched
   * with the engine of pass `Passes(state) + 1`, replaces the previous one,
   * the count goes up by one, and nothing else changes.
   */
  lemma AfterActivitiesRecord(state: GraphState, services: Services)
    requires state.city.Some? && state.interests.Some?
    ensures AfterActivities(state, services) == state.(
      activities := Some(Activities.ActivityList(services.search(Passes(state) + 1), state.city.value,
                                                 Activities.Interests(state.interests.value), state.activityPreference)),
      searchIterations := Some(Passes(state) + 1))
  {
  }

  /** Where the gate sends the run after a pass: back to the activities only while the passes are under the cap. */
  function Route(state: GraphState, services: Services, maxIterations: int): (next: Stage)
    ensures next == ActivitiesStep <==>
      Passes(state) < maxIterations && Gate.AsksForMore(services.verdict(Passes(state)))
  {
    var route := Gate.CheckActivityQuality(state.searchIterations, maxIterations, services.verdict(Passes(state)));
    if route == Gate.ToActivities then ActivitiesStep else GenerateStep
  }

  /** A move of the run from `stage` to `next`: along an edge, keeping the invariant, one step closer to the end. */
  predicate Advances(stage: Stage, state: GraphState, next: Stage, state': GraphState, maxIterations: int) {
    && next in Successors(stage)
    && Inv(next, state', maxIterations)
    && 0 <= Measure(next, state', maxIterations) < Measure(stage, state, maxIterations)
  }

  /** The edge out of the parse stage, once the reply has been parsed into `parsed`. */
  function ParseMove(state: GraphState, parsed: GraphState, maxIterations: int): (r: (Stage, GraphState))
    requires Inv(WeatherStep, parsed, maxIterations)
    ensures Advances(ParseStep, state, r.0, r.1, maxIterations)
  {
    (WeatherStep, parsed)
  }

  /** The weather stage and its edge. */
  function WeatherMove(state: GraphState, services: Services, maxIterations: int): (r: (Stage, GraphState))
    requires Inv(WeatherStep, state, maxIterations)
    ensures Advances(WeatherStep, state, r.0, r.1, maxIterations)
  {
    (DecideStep, AfterWeather(state, services))
  }

  /** The decision stage and its edge. */
  function DecideMove(state: GraphState, services: Services, maxIterations: int): (r: (Stage, GraphState))
    requires Inv(DecideStep, state, maxIterations)
    ensures Advances(DecideStep, state, r.0, r.1, maxIterations)
  {
    (ActivitiesStep, AfterDecide(state, services))
  }

  /** One activities pass and the gate after it: one pass more, one step less. */
  function ActivitiesMove(state: GraphState, services: Services, maxIterations: int): (r: (Stage, GraphState))
    requires Inv(ActivitiesStep, state, maxIterations)
    ensures Advances(ActivitiesStep, state, r.0, r.1, maxIterations)
    ensures r.1 == AfterActivities(state, services) && r.0 == Route(r.1, services, maxIterations)
  {
    var next := AfterActivities(state, services);
    var count := next.searchIterations.value;
    assert Passes(next) == count;
    var stage := Route(next, services, maxIterations);
    assert stage == ActivitiesStep ==> count < maxIterations;
    (stage, next)
  }

  /** The generation stage and its edge to the end. */
  function GenerateMove(state: GraphState, services: Services, maxIterations: int): (r: (Stage, GraphState))
    ensures Advances(GenerateStep, state, r.0, r.1, maxIterations)
    ensures r.1.finalItinerary.Some? && r.1.finalItinerary.value == services.itinerary
    ensures state.searchIterations.Some? ==>
      r.1.searchIterations.Some? && r.1.searchIterations.value == state.searchIterations.value
  {
    (Finished, Merge(state, NoFields.(finalItinerary := Some(services.itinerary))))
  }

  /** Whether the verdict given after pass `count` asks for another pass. */
  function MoreWanted(services: Services): (more: int -> bool)
    ensures forall count :: more(count) == Gate.AsksForMore(services.verdict(count))
  {
    count => Gate.AsksForMore(services.verdict(count))
  }

  /**
   * Below the cap, more is wanted after pass `count` exactly when the gate
   * sends the run back to the activities stage on that pass's verdict.
   */
  lemma MoreWantedIsGate(services: Services, count: int, maxIterations: int)
    requires count < maxIterations
    ensures MoreWanted(services)(count)
        <==> Gate.CheckActivityQuality(Some(count), maxIterations, services.verdict(count)) == Gate.ToActivities
  {
  }

  /**
   * The passes a run makes in all, once `done` passes are behind it and the
   * activities stage is about to run again: pass `done + 1` is made, and
   * another follows while that count is under the cap and `more` says the
   * verdict on it asks for more.
   */
  function TotalPasses(done: int, more: int -> bool, maxIterations: int): (total: int)
    requires 0 <= done < Bound(maxIterations)
    ensures done < total <= Bound(maxIterations)
    decreases Bound(maxIterations) - done
  {
    var count := done + 1;
    if count < maxIterations && more(count)
    then TotalPasses(count, more, maxIterations)
    else count
  }

  /** The run from the generation stage: the itinerary written into the record, and the end. */
  function FromGenerate(state: GraphState, services: Services, maxIterations: int): (r: Outcome)
    ensures r.Ok?
    ensures r.value.finalItinerary.Some? && r.value.finalItinerary.value == services.itinerary
    ensures state.searchIterations.Some? ==>
      r.value.searchIterations.Some? && r.value.searchIterations.value == state.searchIterations.value
  {
    Ok(GenerateMove(state, services, maxIterations).1)
  }

  /**
   * The run from the activities stage: passes until the cap or the verdict
   * stops them, then generation. The count at the end is `TotalPasses`.
   */
  function FromActivities(state: GraphState, services: Services, maxIterations: int): (r: Outcome)
    requires Inv(ActivitiesStep, state, maxIterations)
    ensures r.Ok? && r.value.searchIterations.Some?
    ensures r.value.searchIterations.value == TotalPasses(Passes(state), MoreWanted(services), maxIterations)
    ensures r.value.finalItinerary.Some? && r.value.finalItinerary.value == services.itinerary
    decreases Bound(maxIterations) - Passes(state)
  {
    var move := ActivitiesMove(state, services, maxIterations);
    assert Passes(move.1) == Passes(state) + 1;
    if move.0 == ActivitiesStep then FromActivities(move.1, services, maxIterations)
    else FromGenerate(move.1, services, maxIterations)
  }

  /**
   * The record the run from the activities stage ends with: the activities of
   * the last pass, the count of all passes and the itinerary; every other
   * field as it was.
   */
  lemma {:induction false} FromActivitiesRecord(state: GraphState, services: Services, maxIterations: int)
    requires Inv(ActivitiesStep, state, maxIterations)
    ensures var total := TotalPasses(Passes(state), MoreWanted(services), maxIterations);
      FromActivities(state, services, maxIterations).value == state.(
        activities := Some(Activities.ActivityList(services.search(total), state.city.value,
                                                   Activities.Interests(state.interests.value), state.activityPreference)),
        finalItinerary := Some(services.itinerary),
        searchIterations := Some(total))
    decreases Bound(maxIterations) - Passes(state)
  {
    var move := ActivitiesMove(state, services, maxIterations);
    AfterActivitiesRecord(state, services);
    var count := Passes(state) + 1;
    assert Passes(move.1) == count;
    if move.0 == ActivitiesStep {
      assert count < maxIterations && MoreWanted(services)(count);
      FromActivitiesRecord(move.1, services, maxIterations);
    } else {
      assert !(count < maxIterations && MoreWanted(services)(count));
    }
  }

  /** The run from the decision stage: the preference stored, then no pass counted yet. */
  function FromDecide(state: GraphState, services: Services, maxIterations: int): (r: Outcome)
    requires Inv(DecideStep, state, maxIterations)
    ensures r.Ok? && r.value.searchIterations.Some?
    ensures r.value.searchIterations.value == TotalPasses(0, MoreWanted(services), maxIterations)
    ensures r.value.finalItinerary.Some? && r.value.finalItinerary.value == services.itinerary
  {
    var move := DecideMove(state, services, maxIterations);
    assert Passes(move.1) == 0;
    FromActivities(move.1, services, maxIterations)
  }

  /** The run from the weather stage. */
  function FromWeather(state: GraphState, services: Services, maxIterations: int): (r: Outcome)
    requires Inv(WeatherStep, state, maxIterations)
    ensures r.Ok? && r.value.searchIterations.Some?
    ensures r.value.searchIterations.value == TotalPasses(0, MoreWanted(services), maxIterations)
    ensures r.value.finalItinerary.Some? && r.value.finalItinerary.value == services.itinerary
  {
    FromDecide(WeatherMove(state, services, maxIterations).1, services, maxIterations)
  }

  /** The run from the parse stage once the reply has been parsed into `update`: it stops there on an error. */
  function ContinueParse(state: GraphState, update: Result<GraphState, ParseStage.ParseError>, services: Services, maxIterations: int): (r: Outcome)
    requires Inv(ParseStep, state, maxIterations)
    requires update.Ok? ==> update.value.city.Some? && update.value.days.Some? && update.value.interests.Some?
    requires update.Ok? ==> update.value.searchIterations.None?
    ensures r.Err? <==> update.Err?
    ensures r.Err? ==> r.error == update.error
    ensures r.Ok? ==>
      && r.value.searchIterations.Some?
      && r.value.searchIterations.value == TotalPasses(0, MoreWanted(services), maxIterations)
      && r.value.finalItinerary.Some? && r.value.finalItinerary.value == services.itinerary
  {
    var parsed := AfterParse(state, update);
    if parsed.Err? then Err(parsed.error)
    else FromWeather(ParseMove(state, parsed.value, maxIterations).1, services, maxIterations)
  }
  /**
   * The record a run that parsed `fields` ends with: the parsed city, days
   * and interests, the weather report for those days, the preference the
   * decision reply coerces to, the activities of the last pass searched with
   * that preference, the count of all passes and the itinerary; the rest of
   * `state` as it was.
   */
  function PlannedRecord(state: GraphState, fields: GraphState, services: Services, maxIterations: int): GraphState
    requires fields.city.Some? && fields.days.Some? && fields.interests.Some?
  {
    var preference := Some(Decide.Coerce(services.decideReply));
    var total := TotalPasses(0, MoreWanted(services), maxIterations);
    state.(
      city := fields.city, days := fields.days, interests := fields.interests,
      weatherData := Some(Forecast.Report(services.weather, fields.days.value)),
      activityPreference := preference,
      activities := Some(Activities.ActivityList(services.search(total), fields.city.value,
                                                 Activities.Interests(fields.interests.value), preference)),
      finalItinerary := Some(services.itinerary),
      searchIterations := Some(total))
  }

  /** A run that parsed `fields` ends with `PlannedRecord`. */
  lemma ContinueParseRecord(state: GraphState, fields: GraphState, services: Services, maxIterations: int)
    requires state.searchIterations.None?
    requires fields == NoFields.(city := fields.city, days := fields.days, interests := fields.interests)
    requires fields.city.Some? && fields.days.Some? && fields.interests.Some?
    ensures ContinueParse(state, Ok(fields), services, maxIterations) == Ok(PlannedRecord(state, fields, services, maxIterations))
  {
    var parsed := AfterParse(state, Ok(fields)).value;
    var weathered := AfterWeather(parsed, services);
    var decided := AfterDecide(weathered, services);
    assert ContinueParse(state, Ok(fields), services, maxIterations) == FromActivities(decided, services, maxIterations);
    assert Passes(decided) == 0;
    FromActivitiesRecord(decided, services, maxIterations);
  }



  /** The run from the parse stage: it stops there when the model's reply does not parse. */
  function FromParse(state: GraphState, services: Services, maxIterations: int): (r: Outcome)
    requires Inv(ParseStep, state, maxIterations)
  {
    ContinueParse(state, ParseStage.ParseUpdate(services.parseReply), services, maxIterations)
  }

  /** The run from `stage` on, until the end or a parse error. */
  function Run(stage: Stage, state: GraphState, services: Services, maxIterations: int): (r: Outcome)
    requires Inv(stage, state, maxIterations)
    ensures r.Err? ==> stage == ParseStep
    ensures stage != Finished && r.Ok? ==>
      r.value.finalItinerary.Some? && r.value.finalItinerary.value == services.itinerary
  {
    match stage
    case ParseStep => FromParse(state, services, maxIterations)
    case WeatherStep => FromWeather(state, services, maxIterations)
    case DecideStep => FromDecide(state, services, maxIterations)
    case ActivitiesStep => FromActivities(state, services, maxIterations)
    case GenerateStep => FromGenerate(state, services, maxIterations)
    case Finished => Ok(state)
  }

  /** What `plan_trip` returns for an outcome: the itinerary, or the fallback text when the record has none. */
  function Answer(outcome: Outcome): Result<string, ParseStage.ParseError> {
    match outcome
    case Err(e) => Err(e)
    case Ok(state) => Ok(state.finalItinerary.GetOr(NoItinerary))
  }

  /**
   * `plan_trip`: run the graph from `{"user_request": request}`, one stage at
   * a time, merging each stage's update into the record, and return the
   * itinerary, or the fallback text when the record holds none.
   */
  method PlanTrip(request: string, services: Services, maxIterations: int)
    returns (answer: Result<string, ParseStage.ParseError>)
    ensures answer == Answer(Run(ParseStep, Initial(request), services, maxIterations))
  {
    var stage := ParseStep;
    var state := Initial(request);
    ghost var whole := Run(ParseStep, Initial(request), services, maxIterations);
    while stage != Finished
      invariant Inv(stage, state, maxIterations)
      invariant whole == Run(stage, state, services, maxIterations)
      decreases Measure(stage, state, maxIterations)
    {
      ghost var before := state;
      match stage {
        case ParseStep =>
          var parsed := ParseStage.ParseRequestNode(services.parseReply);
          if parsed.Err? {
            answer := Err(parsed.error);
            return;
          }
          state := Merge(state, parsed.value);
          stage := WeatherStep;
          assert Run(ParseStep, before, services, maxIterations) == Run(stage, state, services, maxIterations);
        case WeatherStep =>
          var weather := Forecast.GetWeatherForecast(services.weather, state.days.value);
          state := Merge(state, NoFields.(weatherData := Some(weather)));
          stage := DecideStep;
          assert Run(WeatherStep, before, services, maxIterations) == Run(stage, state, services, maxIterations);
        case DecideStep =>
          state := Merge(state, Decide.DecideUpdate(services.decideReply));
          stage := ActivitiesStep;
          assert Run(DecideStep, before, services, maxIterations) == Run(stage, state, services, maxIterations);
        case ActivitiesStep =>
          var update := Activities.ActivitiesNode(services.search(Activities.NextIteration(state)), state);
          state := Merge(state, update);
          stage := Route(state, services, maxIterations);
          assert Run(ActivitiesStep, before, services, maxIterations) == Run(stage, state, services, maxIterations);
        case GenerateStep =>
          state := Merge(state, NoFields.(finalItinerary := Some(services.itinerary)));
          stage := Finished;
          assert Run(GenerateStep, before, services, maxIterations) == Run(stage, state, services, maxIterations);
      }
    }
    answer := Ok(state.finalItinerary.GetOr(NoItinerary));
  }
}
