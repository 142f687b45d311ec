# AI travel itinerary planner — a Dafny model of its workflow

The planner (`src/mini2/app.py`) turns a free-text travel request into an itinerary. It runs a fixed graph of stages over one shared record (`GraphState`):

- **parse**: asks a language model for `City:`, `Days:` and `Interests:` lines, then reads them back into `city`, `days` and `interests`, with defaults.
- **weather**: summarises the weather service's three-hourly forecast, one entry per day and at most five days.
- **decide**: coerces the model's one-word answer into INDOOR, OUTDOOR or BOTH.
- **activities**: runs one web search per interest, narrowed by that preference, and lists each interest, title-cased, with its result. It counts its passes in `search_iterations`.
- **gate** (`check_activity_quality`): sends the run back to activities while the count is under `max_search_iterations` and the model's verdict holds `NEED_MORE`. Otherwise the run goes on to generation.
- **generate**: stores the model's itinerary. `plan_trip` returns it, or `"No itinerary generated"`.

The model keeps the deterministic core:

- Each stage is a function from the record to its partial update. Where the source loops, the stage is a method with a loop proved against that function.
- The shallow merge of updates into the record.
- The gate, and the whole run as a state machine.
- `plan_trip` as a loop that drives that machine.

Everything the outside world answers is an input, gathered in `Workflow.Services`:

- the parse reply and the decision reply;
- the weather response;
- the search engine during pass `n`;
- the verdict after pass `n`;
- the itinerary text.

Module layout, one file each:

- `Wrappers` (Option, Result).
- `Text`: the Python `str` operations used — `strip`, `lower`, `upper`, `title`, `split`, `join`, `in`, `str(int)` and `int(str)`.
- `Graph`: the record and its merge.
- `ParseStage`, `Forecast`, `Decide`, `Activities` and `Gate`: one stage each. The companion modules `ParseExamples`, `ForecastExamples` and `ActivitiesExamples` replay the test suite's inputs.
- `Workflow`: the graph, the run and `plan_trip`.
- `Runs`: facts about whole runs.

How the parse stage treats the number of days:

- Days default to 5 only when no line of the reply defines `days`.
- A days text that `int()` cannot read stops the run with a `ValueError`, modelled as `ParseStage.DaysNotInteger`.
- Zero and negative day counts are kept as they are, and the weather summary for them is empty.

## Model

| member | source | states |
|---|---|---|
| Text.Strip | src/mini2/app.py:133 | the result has no whitespace at either end and sits in the input with only whitespace around it |
| Text.Split | src/mini2/app.py:184 | one piece more than there are separators; no piece holds the separator; joining the pieces with it gives the input back |
| Text.SplitJoin | src/mini2/app.py:184 | splitting undoes joining, for pieces without the separator |
| Text.Find | src/mini2/app.py:138 | the index returned is an occurrence of the pattern and no earlier index is; None means no occurrence at all |
| Text.Contains | src/mini2/app.py:238 | `pat in s` holds exactly when the pattern occurs at some index |
| Text.TitleKeepsLetters | src/mini2/app.py:207 | title-casing changes only the case of letters |
| Text.TitleIdempotent | src/mini2/app.py:207 | title-casing twice is title-casing once |
| Text.NatToString | src/mini2/app.py:50 | the decimal text of a number is non-empty and all digits |
| Text.IntRoundTrip | src/mini2/app.py:143 | `int(str(i)) == i` for every integer |
| Text.IntSkipsOnlyItsWhitespace | src/mini2/app.py:143 | `int()` skips a tab around the number but rejects the ASCII separator U+001C, which `str.strip` would remove |
| ParseStage.NonBlank | src/mini2/app.py:133 | no kept line is empty |
| ParseStage.NonBlankTrimmed | src/mini2/app.py:133 | every kept line has no whitespace at either end |
| ParseStage.NonBlankKept | src/mini2/app.py:133 | the kept lines are exactly the stripped pieces that are not blank, in their original order: each line comes from a piece at an increasing position, and every piece that is not blank is kept |
| ParseStage.Field | src/mini2/app.py:137-139 | a line sets a key exactly when it holds `": "`; the key is the lower-cased text before the first `": "` and the value everything after it |
| ParseStage.Resolve | src/mini2/app.py:141-145 | the stage fails exactly when a days text is present and `int()` cannot read it; otherwise it returns city, days and interests and no other key |
| ParseStage.FieldValueNonEmpty | src/mini2/app.py:136-139 | the value split off a kept line is never empty, since a stripped line cannot end with the space of `": "` |
| ParseStage.FieldsNonEmpty | src/mini2/app.py:135-139 | a dict filled from kept lines holds no empty value |
| ParseStage.ResolveNonEmpty | src/mini2/app.py:141-145 | when the dict holds no empty value, a successful resolution has a non-empty city and interests text, taken from the dict or the non-empty defaults |
| ParseStage.ParsedTextNonEmpty | src/mini2/app.py:141-145 | a successful parse never yields an empty city or an empty interests text |
| ParseStage.CollectFields | src/mini2/app.py:135-139 | the loop leaves the dict the lines define, later lines overwriting earlier ones |
| ParseStage.ParseRequestNode | src/mini2/app.py:133-145 | the stage's result is the resolution of the dict read from the reply's stripped non-blank lines |
| ParseStage.KeyFromLine | src/mini2/app.py:135-139 | a key in the dict was set by some line |
| ParseStage.LineToKey | src/mini2/app.py:135-139 | a key some line sets is in the dict |
| ParseStage.KeyPresent | src/mini2/app.py:135-139 | a key is in the dict exactly when some line defines it |
| ParseStage.FieldsAppend | src/mini2/app.py:135-139 | one more line updates the dict with its key and value if it holds `": "`, and leaves it alone otherwise |
| ParseStage.LastLineWins | src/mini2/app.py:136-139 | a key holds the value of the last line that defines it |
| ParseStage.LineWithoutSeparatorIgnored | src/mini2/app.py:137 | a line without `": "` has no effect on the dict, wherever it stands |
| ParseStage.KeyValueLine | src/mini2/app.py:137-139 | `Key: value` with a colon-free key sets the lower-cased key to everything after the first `": "` |
| ParseStage.LineWithoutColon | src/mini2/app.py:137 | a line without a colon sets nothing |
| ParseStage.MissingKeysDefault | src/mini2/app.py:141-144 | a key no line defines takes its default: Unknown, 5 or sightseeing |
| ParseStage.LastCityAndInterestsWin | src/mini2/app.py:142-144 | city and interests are the values of the last lines that define them |
| ParseStage.DaysFromLastLine | src/mini2/app.py:143 | the stage fails exactly when `int()` cannot read the last days text, and otherwise keeps that number, zero and negatives included |
| ParseExamples.ParisExample | tests/test_app.py:10-25 | the test suite's reply yields Paris, 3 and `museums, cafes` |
| ParseExamples.ZeroDaysKept | src/mini2/app.py:139-143 | an upper-case key is read, and zero days is kept |
| ParseExamples.WordDaysFail | src/mini2/app.py:143 | days spelled in words make the stage fail rather than default |
| ParseExamples.AllDefaults | src/mini2/app.py:141-144 | a reply without `Key: value` lines leaves every key at its default |
| Forecast.CollectForecasts | src/mini2/app.py:41-52 | the loop appends exactly the day entries of the horizon, in order |
| Forecast.GetWeatherForecast | src/mini2/app.py:36-57 | the tool's text is the joined day entries, or the error text of a failed request |
| Forecast.EntryShape | src/mini2/app.py:50-52 | a day entry is trimmed and holds no bar when its item holds none |
| Forecast.SummaryReadsBack | src/mini2/app.py:41-54 | splitting the summary on the bar and stripping gives back one entry per day, `min(days, 5)` of them |
| Forecast.NoDaysNoSummary | src/mini2/app.py:42-44 | no day to forecast gives an empty summary |
| Forecast.DayReadsItsSlot | src/mini2/app.py:44-52 | day `k` reads the item at `(k - 1) * 8` when the list reaches it, and otherwise says the forecast could not be had |
| Forecast.ErrorsAreMarked | src/mini2/app.py:54-57 | for every number of days, zero and negative included, the text starts with `Error` exactly when the request failed |
| ForecastExamples.TestSuiteForecast | tests/test_app.py:68-96 | three days over the test payload read the items at 0, 8 and 16 |
| ForecastExamples.ShortPayload | src/mini2/app.py:51-52 | a list too short for a day gives that day the fallback text |
| Decide.Coerce | src/mini2/app.py:169-173 | the stored preference is the normalised answer exactly when the answer names one, and BOTH otherwise |
| Decide.DecideUpdate | src/mini2/app.py:176 | the stage returns `activity_preference` and nothing else |
| Decide.CoerceName | src/mini2/app.py:169-173 | a preference's own name is read back as that preference |
| Decide.CoerceNormalisedName | src/mini2/app.py:169-173 | any answer that normalises to a preference's name yields it, whatever its case or padding |
| Decide.TestSuiteDecision | tests/test_app.py:28-45 | the answer `INDOOR` is kept |
| Activities.ActivitiesUpdate | src/mini2/app.py:178-210 | the stage returns `activities` and `search_iterations`, the count one above the previous one (0 when absent), and no other key |
| Activities.SearchAll | src/mini2/app.py:187-201 | each interest is paired, in order, with the search made for its category |
| Activities.ActivitiesNode | src/mini2/app.py:178-210 | the stage's update is the list of title-cased interests with their results, and the next count |
| Activities.EntryPerInterest | src/mini2/app.py:184-207 | one entry per comma-separated interest |
| Activities.EntryNamesInterest | src/mini2/app.py:207 | entry `i` is interest `i` up to case, `": "`, then the result of the search for interest `i` |
| Activities.QueryFollowsPreference | src/mini2/app.py:66 | the query is `best indoor …`, `best outdoor …` or `best …` as the preference says; an absent preference counts as BOTH |
| Activities.FailureIsIsolated | src/mini2/app.py:68-73 | a failed search changes only the entries of its own interest, which carry the error naming the category |
| Activities.OnlyActivitiesChange | src/mini2/app.py:210 | merging the stage's update changes only `activities` and `search_iterations` |
| Activities.InterestsRoundTrip | src/mini2/app.py:184 | interests written as a comma-and-space list are read back one by one |
| ActivitiesExamples.ParisIndoor | src/mini2/app.py:187-207 | an indoor preference narrows both searches and the entries keep the order of the interests |
| ActivitiesExamples.ParisSearchFails | src/mini2/app.py:72-73 | a failed search is reported in its own entry, naming the category searched |
| Gate.CheckActivityQuality | src/mini2/app.py:212-243 | at or above the cap the run moves on without asking; below it, back to activities exactly when the upper-cased verdict holds `NEED_MORE` |
| Gate.StripIsImmaterial | src/mini2/app.py:233-238 | stripping the verdict before the test changes nothing |
| Gate.TestSuiteGate | tests/test_app.py:48-65 | `SUFFICIENT` with no pass counted moves on to generation |
| Gate.LowerCaseVerdict | src/mini2/app.py:233-240 | a lower-case `need_more` sends the run back to activities |
| Gate.SufficientIsEnough | src/mini2/app.py:238 | `SUFFICIENT` does not ask for more |
| Gate.LowerCaseAsksForMore | src/mini2/app.py:233-238 | `need_more` asks for more |
| Workflow.AfterParse | src/mini2/app.py:141-147 | on success the record holds city, days and interests and no pass yet, and when the update carries only those three keys the new record is the old one with exactly those three replaced; a failure is passed on unchanged |
| Workflow.AfterWeather | src/mini2/app.py:149-157 | the new record is the old one with `weather_data` set to the forecast report for the recorded number of days, nothing else changed |
| Workflow.AfterDecide | src/mini2/app.py:159-176 | the new record is the old one with `activity_preference` set to the coerced reply, nothing else changed |
| Workflow.AfterActivities | src/mini2/app.py:178-210 | one more pass is counted and every field the later stages read stays set |
| Workflow.AfterActivitiesRecord | src/mini2/app.py:178-210 | the new record is the old one with `activities` replaced by this pass's list, searched with this pass's engine, and the count one higher, nothing else changed |
| Workflow.Route | src/mini2/app.py:108-115 | the run goes back to activities exactly when the count is under the cap and the verdict on it asks for more |
| Workflow.MoreWantedIsGate | src/mini2/app.py:232-240 | below the cap, the per-pass decision the run uses is true exactly when `check_activity_quality` routes that pass's verdict back to the activities stage |
| Workflow.ParseMove | src/mini2/app.py:103 | parse leads to weather, keeps the invariant and lowers the measure |
| Workflow.WeatherMove | src/mini2/app.py:104 | weather leads to decide, keeps the invariant and lowers the measure |
| Workflow.DecideMove | src/mini2/app.py:105 | decide leads to activities, keeps the invariant and lowers the measure |
| Workflow.ActivitiesMove | src/mini2/app.py:108-115 | a pass leads back to activities or on to generation, along a declared edge, keeping the pass count under the bound |
| Workflow.GenerateMove | src/mini2/app.py:117 | generation stores the itinerary and ends the run |
| Workflow.TotalPasses | src/mini2/app.py:108-115 | a run makes at least one pass and at most `max(1, max_search_iterations)` |
| Workflow.FromGenerate | src/mini2/app.py:245-281 | the run ends with the model's itinerary in the record |
| Workflow.FromActivities | src/mini2/app.py:178-243 | from the activities stage the run ends with the itinerary and with `TotalPasses` passes counted |
| Workflow.FromActivitiesRecord | src/mini2/app.py:178-243 | the record the run ends with holds the activities of the last pass, the count of all passes and the itinerary, every other field as it was |
| Workflow.FromDecide | src/mini2/app.py:105 | from the decision stage the run ends with the itinerary after `TotalPasses` passes from zero |
| Workflow.FromWeather | src/mini2/app.py:104 | from the weather stage the run ends with the itinerary after `TotalPasses` passes from zero |
| Workflow.ContinueParse | src/mini2/app.py:100-105 | a run stops at parse exactly when the reply fails to parse, with that error; otherwise it ends with the itinerary and `TotalPasses` passes |
| Workflow.ContinueParseRecord | src/mini2/app.py:100-119 | a run that parsed city, days and interests ends with `PlannedRecord`: those fields, the forecast report for those days, the coerced preference, the last pass's activities searched with that preference, the pass count and the itinerary |
| Workflow.Run | src/mini2/app.py:90-119 | only the parse stage can stop a run with an error; every other start ends with the itinerary |
| Workflow.PlanTrip | src/mini2/app.py:283-287 | the stage-by-stage loop terminates and answers what the run from `{"user_request": request}` ends with |
| Runs.TotalPassesStops | src/mini2/app.py:221-240 | passes stop at the first count that reaches the cap or whose verdict does not ask for more; every earlier count was under the cap and asked |
| Runs.AlwaysMoreReachesCap | src/mini2/app.py:221-223 | a model that always asks for more gets exactly the cap's number of passes |
| Runs.SatisfiedAfterOnePass | src/mini2/app.py:242-243 | a model satisfied after the first pass gets exactly one |
| Runs.SmallCapOnePass | src/mini2/app.py:221-223 | with a cap of one or less the gate never asks: one pass |
| Runs.PlanTripRecord | src/mini2/app.py:283-287 | when the reply parses, the run from `{"user_request": request}` ends with `PlannedRecord` of the parsed fields, so generation sees the forecast report, the coerced preference and the last pass's activities |
| Runs.PlanTripAnswers | src/mini2/app.py:283-287 | `plan_trip` answers the parse error exactly when the reply does not parse, and otherwise the model's itinerary, never the fallback, after one to `max(1, cap)` passes |
| Runs.TwoPasses | src/mini2/app.py:108-115 | a cap of three, more asked after pass one and not after pass two: two passes |
| Runs.TwoPassesScenario | src/mini2/app.py:233-243 | the same with the verdict texts `need_more` and `SUFFICIENT` |

## Left out

- The HTTP request and the API key check (src/mini2/app.py:30-39): the weather stage takes the decoded `list` or the exception text as its input. A payload of the wrong shape raises inside the `try` and is one more `FetchFailed` message.
- The city is not part of the weather input: it only goes into the request URL.
- Temperatures are floats printed by Python. The model carries each item's condition and temperature as the text they print as.
- DuckDuckGo: during one pass the search engine is a function from query to result text or exception text. So two equal interests in one pass (`museums, museums`) get one and the same result, while the source runs two independent searches whose results may differ, one of them possibly failing.
- The prompts and the language model: every reply (parse, decision, verdict, itinerary) is an input.
- The verdict is modelled as a function of the pass count, though in the source it depends on the activities text. The same holds for the search engine, which is indexed by pass.
- asyncio: the searches are awaited together and `gather` keeps their order, so the model searches one interest after another.
- LangGraph's own machinery: node dispatch and merging are modelled by `Workflow.Run` and `Graph.Merge`. Its default recursion limit of 25 steps is not modelled: with a cap above about twenty, LangGraph would raise where the model keeps making passes.
- Workflow.PlanTrip: the answer is tied to the run, and the facts about the run are proved about `Run` and in `Runs`. The sequence of stages visited is not returned, since `plan_trip` does not return it.
- Text.Upper: Python's `upper`, `lower` and `title` change the case of every Unicode letter; the model changes only ASCII letters, and `title` treats only ASCII letters as cased.
- Text.ParseInt: Python's `int()` also accepts underscores between digits and non-ASCII decimal digits, and since Python 3.11 rejects text of more than 4300 digits; the model accepts the whitespace `int()` skips (ASCII space, tab, line feed, vertical tab, form feed, carriage return and non-ASCII Unicode whitespace), an optional sign and any number of ASCII digits.
- Activities.ActivitiesUpdate: requires `city` and `interests` to be set, as the source reads them with `[]` and would raise `KeyError`. Inside a run `Workflow.Inv` shows both are always set.
- Printing, `dotenv`, the model client's configuration, the `__main__` block and the tests themselves. The tests' inputs are replayed by the example lemmas.
