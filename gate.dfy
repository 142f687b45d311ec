/**
 * The quality gate after each activities pass (`check_activity_quality`):
 * once the pass count reaches the configured maximum the run moves on to the
 * itinerary; before that, the language model's verdict on the activities
 * decides. The verdict itself is an input here.
 */
module Gate {
  import opened Wrappers
  import opened Text

  /** The two edges out of the activities stage. */
  datatype Route = ToActivities | ToGenerate

  /** The verdict that asks for another pass. */
  const NeedMore := "NEED_MORE"

  /** The verdict asks for another pass: `"NEED_MORE" in reply.strip().upper()`. */
  predicate AsksForMore(reply: string) {
    Contains(Upper(Strip(reply)), NeedMore)
  }

  /**
   * The route after a pass: `search_iterations` (0 when absent) at or above
   * `maxIterations` forces the itinerary without asking; below it, another
   * pass exactly when the verdict holds `NEED_MORE`.
   */
  function CheckActivityQuality(iterations: Option<int>, maxIterations: int, reply: string): (route: Route)
    ensures iterations.GetOr(0) >= maxIterations ==> route == ToGenerate
    ensures iterations.GetOr(0) < maxIterations ==>
      (route == ToActivities <==> exists j :: MatchAt(Upper(Strip(reply)), NeedMore, j))
  {
    var currentIteration := iterations.GetOr(0);
    if currentIteration >= maxIterations then ToGenerate
    else if Contains(Upper(Strip(reply)), NeedMore) then ToActivities
    else ToGenerate
  }

  /** Text that lacks one of the pattern's characters does not contain the pattern. */
  lemma MissingCharacter(s: string, pat: string, c: char)
    requires c in pat && c !in s
    ensures !Contains(s, pat)
  {
    forall j: nat
      ensures !MatchAt(s, pat, j)
    {
      if j + |pat| <= |s| {
        var k :| 0 <= k < |pat| && pat[k] == c;
        assert s[j..j + |pat|][k] == s[j + k];
      }
    }
  }

  lemma UpperSufficient()
    ensures Upper(Strip("SUFFICIENT")) == "SUFFICIENT"
  {
    StripTrimmed("SUFFICIENT");
  }

  /** The verdict of the test suite, `SUFFICIENT`, after no pass counted, moves on to the itinerary. */
  lemma TestSuiteGate()
    ensures CheckActivityQuality(Some(0), 2, "SUFFICIENT") == ToGenerate
  {
    UpperSufficient();
    assert NeedMore[4] == '_';
    MissingCharacter("SUFFICIENT", NeedMore, '_');
  }

  lemma UpperNeedMore()
    ensures Upper(Strip("need_more")) == NeedMore
  {
    StripTrimmed("need_more");
  }

  /** `SUFFICIENT` does not ask for another pass. */
  lemma SufficientIsEnough()
    ensures !AsksForMore("SUFFICIENT")
  {
    UpperSufficient();
    assert NeedMore[4] == '_';
    MissingCharacter("SUFFICIENT", NeedMore, '_');
  }

  /** `need_more`, in lower case, asks for another pass. */
  lemma LowerCaseAsksForMore()
    ensures AsksForMore("need_more")
  {
    UpperNeedMore();
    assert MatchAt(NeedMore, NeedMore, 0);
  }

  /** The verdict is read without regard to case. */
  lemma LowerCaseVerdict()
    ensures CheckActivityQuality(Some(0), 2, "need_more") == ToActivities
  {
    UpperNeedMore();
    assert MatchAt(NeedMore, NeedMore, 0);
  }

  /** Upper-casing a slice is slicing the upper-cased text. */
  lemma UpperSlice(s: string, i: nat, j: nat)
    requires i <= j <= |s|
    ensures Upper(s[i..j]) == Upper(s)[i..j]
  {
  }

  lemma SliceOfSlice(s: string, a: nat, b: nat, c: nat, d: nat)
    requires a <= b <= |s| && c <= d <= b - a
    ensures s[a..b][c..d] == s[a + c..a + d]
  {
    assert forall k :: 0 <= k < d - c ==> s[a..b][c..d][k] == s[a + c + k];
  }

  /** An occurrence in the stripped text is an occurrence in the whole text, shifted by the padding. */
  lemma MatchInStripped(reply: string, i: nat, j: nat)
    requires Padded(reply, Strip(reply), i)
    requires MatchAt(Upper(Strip(reply)), NeedMore, j)
    ensures MatchAt(Upper(reply), NeedMore, i + j)
  {
    var t := Strip(reply);
    UpperSlice(reply, i, i + |t|);
    assert Upper(reply)[i + j..i + j + |NeedMore|] == Upper(t)[j..j + |NeedMore|];
  }

  /** Whitespace stays whitespace under upper-casing. */
  lemma UpperKeepsNonSpace(c: char)
    requires !IsSpace(UpperChar(c))
    ensures !IsSpace(c)
  {
  }

  /** An occurrence in the whole text starts and ends on a letter, so it lies inside the stripped text. */
  lemma MatchInsidePadding(reply: string, i: nat, j: nat)
    requires Padded(reply, Strip(reply), i)
    requires MatchAt(Upper(reply), NeedMore, j)
    ensures i <= j && j + |NeedMore| <= i + |Strip(reply)|
  {
    var v := Upper(reply);
    var last := j + |NeedMore| - 1;
    assert v[j] == NeedMore[0] == v[j..j + |NeedMore|][0];
    assert v[last] == NeedMore[|NeedMore| - 1] == v[j..j + |NeedMore|][|NeedMore| - 1];
    UpperKeepsNonSpace(reply[j]);
    UpperKeepsNonSpace(reply[last]);
  }

  /** An occurrence in the whole text is an occurrence in the stripped text, shifted back by the padding. */
  lemma MatchInWhole(reply: string, i: nat, j: nat)
    requires Padded(reply, Strip(reply), i)
    requires MatchAt(Upper(reply), NeedMore, j)
    ensures i <= j && MatchAt(Upper(Strip(reply)), NeedMore, j - i)
  {
    var t := Strip(reply);
    MatchInsidePadding(reply, i, j);
    UpperSlice(reply, i, i + |t|);
    SliceOfSlice(Upper(reply), i, i + |t|, j - i, j - i + |NeedMore|);
    assert Upper(t)[j - i..j - i + |NeedMore|] == Upper(reply)[j..j + |NeedMore|];
  }

  /**
   * Stripping the verdict before the test changes nothing: the pattern holds
   * no whitespace, so it can only occur inside the stripped text.
   */
  lemma StripIsImmaterial(reply: string)
    ensures AsksForMore(reply) <==> Contains(Upper(reply), NeedMore)
  {
    var i :| Padded(reply, Strip(reply), i);
    if j :| MatchAt(Upper(Strip(reply)), NeedMore, j) {
      MatchInStripped(reply, i, j);
    }
    if j :| MatchAt(Upper(reply), NeedMore, j) {
      MatchInWhole(reply, i, j);
    }
  }
}
