/**
 * The shared record every stage of the planner reads and partially updates
 * (the `GraphState` TypedDict), and the shallow merge that folds a stage's
 * returned fields into it.
 */
module Graph {
  import opened Wrappers

  /** The three activity preferences the decision stage may store. */
  datatype Preference = Indoor | Outdoor | Both

  /** The text under which a preference is stored and compared. */
  function PreferenceName(p: Preference): string {
    match p
    case Indoor => "INDOOR"
    case Outdoor => "OUTDOOR"
    case Both => "BOTH"
  }

  /**
   * One record per run. Every key of the TypedDict may be absent until a stage
   * writes it, so every field is optional. The same shape holds the partial
   * dict a stage returns: there a field is present exactly when the stage
   * returns that key.
   */
  datatype GraphState = GraphState(
    userRequest: Option<string>,
    city: Option<string>,
    days: Option<int>,
    interests: Option<string>,
    weatherData: Option<string>,
    activityPreference: Option<Preference>,
    activities: Option<seq<string>>,
    finalItinerary: Option<string>,
    searchIterations: Option<int>)

  /** A record with no key set: the partial update of a stage that returns `{}`. */
  const NoFields := GraphState(None, None, None, None, None, None, None, None, None)

  /** The record a run starts from: `{"user_request": request}`. */
  function Initial(request: string): GraphState {
    NoFields.(userRequest := Some(request))
  }

  function Overwrite<T>(old_: Option<T>, new_: Option<T>): Option<T> {
    if new_.Some? then new_ else old_
  }

  /**
   * Folding a stage's partial update into the record: every key the update
   * carries replaces the record's value, every other key keeps its value.
   */
  function Merge(state: GraphState, update: GraphState): GraphState {
    GraphState(
      Overwrite(state.userRequest, update.userRequest),
      Overwrite(state.city, update.city),
      Overwrite(state.days, update.days),
      Overwrite(state.interests, update.interests),
      Overwrite(state.weatherData, update.weatherData),
      Overwrite(state.activityPreference, update.activityPreference),
      Overwrite(state.activities, update.activities),
      Overwrite(state.finalItinerary, update.finalItinerary),
      Overwrite(state.searchIterations, update.searchIterations))
  }
}
