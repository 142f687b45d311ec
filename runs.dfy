/**
 * Whole runs of the planner: how many activities passes a run makes, and
 * what `plan_trip` answers.
 */
module Runs {
  import opened Wrappers
  import opened Graph
  import ParseStage
  import Gate
  import opened Workflow

  /**
   * The passes a run makes stop at the first count that reaches the cap or
   * whose verdict does not ask for more; every count before it was under the
   * cap and its verdict asked for more.
   */
  lemma {:induction false} TotalPassesStops(done: int, more: int -> bool, maxIterations: int)
    requires 0 <= done < Bound(maxIterations)
    ensures var total := TotalPasses(done, more, maxIterations);
      && (forall c :: done < c < total ==> c < maxIterations && more(c))
      && (total >= maxIterations || !more(total))
    decreases Bound(maxIterations) - done
  {
    var count := done + 1;
    if count < maxIterations && more(count) {
      TotalPassesStops(count, more, maxIterations);
    }
  }

  /** A model that asks for more after every pass gets exactly as many passes as the cap allows. */
  lemma {:induction false} AlwaysMoreReachesCap(done: int, more: int -> bool, maxIterations: int)
    requires 0 <= done < Bound(maxIterations)
    requires forall c :: done < c < maxIterations ==> more(c)
    ensures TotalPasses(done, more, maxIterations) == Bound(maxIterations)
    decreases Bound(maxIterations) - done
  {
    var count := done + 1;
    if count < maxIterations {
      AlwaysMoreReachesCap(count, more, maxIterations);
    }
  }

  /** A model satisfied after the first pass gets exactly one. */
  lemma {:induction false} SatisfiedAfterOnePass(more: int -> bool, maxIterations: int)
    requires !more(1)
    ensures TotalPasses(0, more, maxIterations) == 1
  {
    assert !(1 < maxIterations && more(1));
  }

  /** With a cap of one or less the gate is never asked: one pass, whatever the verdicts. */
  lemma {:induction false} SmallCapOnePass(more: int -> bool, maxIterations: int)
    requires maxIterations <= 1
    ensures TotalPasses(0, more, maxIterations) == 1
  {
    assert !(1 < maxIterations);
  }

  /**
   * What `plan_trip` answers: the parse error when the request's reply does
   * not parse, and otherwise the itinerary the model wrote, never the
   * fallback text; the record then counts between one pass and the cap.
   */
  lemma PlanTripAnswers(request: string, services: Services, maxIterations: int)
    ensures var outcome := Run(ParseStep, Initial(request), services, maxIterations);
      && (outcome.Err? <==> ParseStage.ParseUpdate(services.parseReply).Err?)
      && (outcome.Err? ==> outcome.error == ParseStage.ParseUpdate(services.parseReply).error)
      && (outcome.Ok? ==>
            && Answer(outcome) == Ok(services.itinerary)
            && outcome.value.searchIterations.Some?
            && 1 <= outcome.value.searchIterations.value <= Bound(maxIterations))
  {
    var outcome := Run(ParseStep, Initial(request), services, maxIterations);
    assert outcome == FromParse(Initial(request), services, maxIterations);
    if outcome.Ok? {
      assert outcome.value.searchIterations.value == TotalPasses(0, MoreWanted(services), maxIterations);
    }
  }

  /**
   * The record a successful run ends with: the request, the parsed city,
   * days and interests, the weather report for those days, the preference
   * the decision reply coerces to, the activities of the last pass searched
   * with that preference, the count of all passes and the itinerary.
   */
  lemma PlanTripRecord(request: string, services: Services, maxIterations: int, fields: GraphState)
    requires ParseStage.ParseUpdate(services.parseReply) == Ok(fields)
    ensures fields.city.Some? && fields.days.Some? && fields.interests.Some?
    ensures Run(ParseStep, Initial(request), services, maxIterations)
         == Ok(PlannedRecord(Initial(request), fields, services, maxIterations))
  {
    var update := ParseStage.ParseUpdate(services.parseReply);
    assert fields == NoFields.(city := fields.city, days := fields.days, interests := fields.interests);
    assert Run(ParseStep, Initial(request), services, maxIterations) == ContinueParse(Initial(request), update, services, maxIterations);
    ContinueParseRecord(Initial(request), fields, services, maxIterations);
  }

  /** A cap of three, more asked for after the first pass and not after the second: two passes. */
  lemma {:induction false} TwoPasses(more: int -> bool)
    requires more(1) && !more(2)
    ensures TotalPasses(0, more, 3) == 2
  {
    assert TotalPasses(0, more, 3) == TotalPasses(1, more, 3);
  }

  /**
   * The same with the verdict texts: `need_more` after the first pass, read
   * without regard to case, then `SUFFICIENT`.
   */
  lemma TwoPassesScenario(services: Services)
    requires services.verdict(1) == "need_more" && services.verdict(2) == "SUFFICIENT"
    ensures TotalPasses(0, MoreWanted(services), 3) == 2
  {
    Gate.LowerCaseAsksForMore();
    Gate.SufficientIsEnough();
    TwoPasses(MoreWanted(services));
  }
}
