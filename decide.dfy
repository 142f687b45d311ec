/**
 * The decision stage (`decide_activity_type_node`): the language model's
 * one-word answer on the forecast is normalised and coerced into one of the
 * three activity preferences. The answer itself is an input here.
 */
module Decide {
  import opened Wrappers
  import opened Text
  import opened Graph

  /** The answers the stage accepts as they stand. */
  predicate Recognised(decision: string) {
    decision == "INDOOR" || decision == "OUTDOOR" || decision == "BOTH"
  }

  /** The answer as the stage compares it: stripped and upper-cased. */
  function Normalised(reply: string): string {
    Upper(Strip(reply))
  }

  /**
   * The preference stored for the answer `reply`: the normalised answer when
   * it names a preference, BOTH for anything else.
   */
  function Coerce(reply: string): (p: Preference)
    ensures PreferenceName(p) == Normalised(reply) <==> Recognised(Normalised(reply))
    ensures !Recognised(Normalised(reply)) ==> p == Both
  {
    var decision := Normalised(reply);
    if decision == "INDOOR" then Indoor
    else if decision == "OUTDOOR" then Outdoor
    else Both
  }

  /** The partial update the stage returns: `activity_preference` alone. */
  function DecideUpdate(reply: string): (update: GraphState)
    ensures update.activityPreference.Some?
    ensures update.activityPreference == Some(Coerce(reply))
    ensures update == NoFields.(activityPreference := update.activityPreference)
  {
    NoFields.(activityPreference := Some(Coerce(reply)))
  }

  lemma UpperKeepsCapitals(s: string)
    requires forall c <- s :: 'A' <= c <= 'Z'
    ensures Upper(s) == s
  {
    forall i | 0 <= i < |s| ensures Upper(s)[i] == s[i] {
      assert s[i] in s;
    }
  }

  /** A preference's own name is read back as that preference. */
  lemma CoerceName(p: Preference)
    ensures Coerce(PreferenceName(p)) == p
  {
    var name := PreferenceName(p);
    StripTrimmed(name);
    UpperKeepsCapitals(name);
  }

  /** Any answer that normalises to a preference's name yields that preference, whatever its case or padding. */
  lemma CoerceNormalisedName(reply: string, p: Preference)
    requires Normalised(reply) == PreferenceName(p)
    ensures Coerce(reply) == p
  {
  }

  /** The answer of the test suite, `INDOOR`, is kept. */
  lemma TestSuiteDecision()
    ensures DecideUpdate("INDOOR").activityPreference == Some(Indoor)
  {
    CoerceName(Indoor);
  }
}
