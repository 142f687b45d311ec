/**
 * The parse stage (`parse_request_node`): the language model is asked for
 * `City:`, `Days:` and `Interests:` lines; its reply is read line by line into a
 * dict, and the three keys are taken from it with defaults. The reply itself is
 * an input here.
 */
module ParseStage {
  import opened Wrappers
  import opened Text
  import opened Graph

  /** `int()` raised ValueError on the text given for days; the run stops there. */
  datatype ParseError = DaysNotInteger(text: string)

  /** What separates a key from its value on a line. */
  const Separator := ": "

  const DefaultCity := "Unknown"
  const DefaultDays := 5
  const DefaultInterests := "sightseeing"

  /** The stripped, non-blank pieces among `pieces`, in order. */
  function NonBlank(pieces: seq<string>): (lines: seq<string>)
    ensures forall l <- lines :: l != []
  {
    if pieces == [] then []
    else
      var t := Strip(pieces[0]);
      (if t == [] then [] else [t]) + NonBlank(pieces[1..])
  }

  /** A kept line has no whitespace at either end. */
  lemma {:induction false} NonBlankTrimmed(pieces: seq<string>)
    ensures forall l <- NonBlank(pieces) :: Trimmed(l)
  {
    if pieces != [] {
      NonBlankTrimmed(pieces[1..]);
    }
  }

  /** The `k`-th line is the stripped piece at position `idx[k]`. */
  predicate StrippedFrom(stripped: seq<string>, lines: seq<string>, idx: seq<nat>) {
    && |idx| == |lines|
    && forall k :: 0 <= k < |idx| ==> idx[k] < |stripped| && lines[k] == stripped[idx[k]]
  }

  predicate Increasing(idx: seq<nat>) {
    forall k, m :: 0 <= k < m < |idx| ==> idx[k] < idx[m]
  }

  /** Every stripped piece that is not empty has its position in `idx`. */
  predicate CoversNonBlank(stripped: seq<string>, idx: seq<nat>) {
    forall i :: 0 <= i < |stripped| && stripped[i] != [] ==> i in idx
  }

  /**
   * `idx` says where each kept line comes from among the `stripped` pieces:
   * the `k`-th line is the stripped piece `idx[k]`, the positions increase,
   * and every stripped piece that is not empty is among them.
   */
  predicate KeptAt(stripped: seq<string>, lines: seq<string>, idx: seq<nat>) {
    StrippedFrom(stripped, lines, idx) && Increasing(idx) && CoversNonBlank(stripped, idx)
  }

  /** Every position one further on. */
  function Shifted(idx: seq<nat>): (r: seq<nat>)
    ensures |r| == |idx| && forall k :: 0 <= k < |idx| ==> r[k] == idx[k] + 1
  {
    seq(|idx|, k requires 0 <= k < |idx| => idx[k] + 1)
  }

  /** The positions of the pieces `NonBlank` keeps. */
  function KeptIndices(pieces: seq<string>): seq<nat> {
    if pieces == [] then []
    else (if Strip(pieces[0]) == [] then [] else [0]) + Shifted(KeptIndices(pieces[1..]))
  }

  lemma ShiftedFrom(stripped: seq<string>, rest: seq<string>, later: seq<nat>)
    requires stripped != [] && StrippedFrom(stripped[1..], rest, later)
    ensures StrippedFrom(stripped, rest, Shifted(later))
  {
    forall k | 0 <= k < |later|
      ensures Shifted(later)[k] < |stripped| && rest[k] == stripped[Shifted(later)[k]]
    {
      assert stripped[Shifted(later)[k]] == stripped[1..][later[k]];
    }
  }

  lemma TakenFrom(stripped: seq<string>, rest: seq<string>, later: seq<nat>)
    requires stripped != [] && StrippedFrom(stripped[1..], rest, later)
    ensures StrippedFrom(stripped, [stripped[0]] + rest, [0] + Shifted(later))
  {
    ShiftedFrom(stripped, rest, later);
    var shifted := Shifted(later);
    var idx := [0] + shifted;
    var lines := [stripped[0]] + rest;
    forall k | 0 <= k < |idx|
      ensures idx[k] < |stripped| && lines[k] == stripped[idx[k]]
    {
      if k > 0 {
        assert idx[k] == shifted[k - 1] && lines[k] == rest[k - 1];
      }
    }
  }

  lemma ShiftedIncreasing(later: seq<nat>)
    requires Increasing(later)
    ensures Increasing(Shifted(later)) && Increasing([0] + Shifted(later))
  {
    var idx := [0] + Shifted(later);
    assert forall k :: 0 < k < |idx| ==> idx[k] == Shifted(later)[k - 1];
  }

  lemma ShiftedCovers(stripped: seq<string>, later: seq<nat>)
    requires stripped != [] && CoversNonBlank(stripped[1..], later)
    ensures stripped[0] == [] ==> CoversNonBlank(stripped, Shifted(later))
    ensures CoversNonBlank(stripped, [0] + Shifted(later))
  {
    forall i | 0 < i < |stripped| && stripped[i] != []
      ensures i in Shifted(later)
    {
      assert stripped[i] == stripped[1..][i - 1];
      var k :| 0 <= k < |later| && later[k] == i - 1;
      assert Shifted(later)[k] == i;
    }
    assert forall i :: i in Shifted(later) ==> i in [0] + Shifted(later);
  }

  /** A first piece that strips to nothing is skipped. */
  lemma KeptSkip(stripped: seq<string>, rest: seq<string>, later: seq<nat>)
    requires stripped != [] && stripped[0] == [] && KeptAt(stripped[1..], rest, later)
    ensures KeptAt(stripped, rest, Shifted(later))
  {
    ShiftedFrom(stripped, rest, later);
    ShiftedIncreasing(later);
    ShiftedCovers(stripped, later);
  }

  /** A first piece that does not strip to nothing is kept, first. */
  lemma KeptTake(stripped: seq<string>, rest: seq<string>, later: seq<nat>)
    requires stripped != [] && KeptAt(stripped[1..], rest, later)
    ensures KeptAt(stripped, [stripped[0]] + rest, [0] + Shifted(later))
  {
    TakenFrom(stripped, rest, later);
    ShiftedIncreasing(later);
    ShiftedCovers(stripped, later);
  }

  lemma StripAllTail(pieces: seq<string>)
    requires pieces != []
    ensures StripAll(pieces)[1..] == StripAll(pieces[1..])
  {
    forall i | 0 <= i < |pieces| - 1
      ensures StripAll(pieces)[1..][i] == StripAll(pieces[1..])[i]
    {
      assert pieces[1..][i] == pieces[i + 1];
    }
  }

  /** One step of `NonBlankKept` when the first piece strips to nothing. */
  lemma NonBlankSkip(pieces: seq<string>)
    requires pieces != [] && Strip(pieces[0]) == []
    requires KeptAt(StripAll(pieces[1..]), NonBlank(pieces[1..]), KeptIndices(pieces[1..]))
    ensures KeptAt(StripAll(pieces), NonBlank(pieces), KeptIndices(pieces))
  {
    StripAllTail(pieces);
    KeptSkip(StripAll(pieces), NonBlank(pieces[1..]), KeptIndices(pieces[1..]));
  }

  /** One step of `NonBlankKept` when the first piece keeps some text. */
  lemma NonBlankTake(pieces: seq<string>)
    requires pieces != [] && Strip(pieces[0]) != []
    requires KeptAt(StripAll(pieces[1..]), NonBlank(pieces[1..]), KeptIndices(pieces[1..]))
    ensures KeptAt(StripAll(pieces), NonBlank(pieces), KeptIndices(pieces))
  {
    StripAllTail(pieces);
    KeptTake(StripAll(pieces), NonBlank(pieces[1..]), KeptIndices(pieces[1..]));
  }

  /** The kept lines are the non-blank stripped pieces, in their order, and none is dropped. */
  lemma {:induction false} NonBlankKept(pieces: seq<string>)
    ensures KeptAt(StripAll(pieces), NonBlank(pieces), KeptIndices(pieces))
  {
    if pieces != [] {
      NonBlankKept(pieces[1..]);
      if Strip(pieces[0]) == [] {
        NonBlankSkip(pieces);
      } else {
        NonBlankTake(pieces);
      }
    }
  }

  /** `[line.strip() for line in content.split('\n') if line.strip()]`. */
  function ReplyLines(content: string): seq<string> {
    NonBlank(Split(content, '\n'))
  }

  /** `i` is where `": "` first occurs in `line`. */
  ghost predicate FirstSeparator(line: string, i: nat) {
    MatchAt(line, Separator, i) && forall j :: 0 <= j < i ==> !MatchAt(line, Separator, j)
  }

  /**
   * For a line holding `": "`, the pair `line.split(': ', 1)` with its key
   * lower-cased; for any other line, nothing.
   */
  function Field(line: string): (r: Option<(string, string)>)
    ensures r.None? <==> !Contains(line, Separator)
    ensures r.Some? ==> exists i: nat :: FirstSeparator(line, i) && r.value == (Lower(line[..i]), line[i + |Separator|..])
  {
    match Find(line, Separator)
    case None => None
    case Some(i) => Some((Lower(line[..i]), line[i + |Separator|..]))
  }

  /** `line` sets `key` in the dict. */
  predicate DefinesKey(line: string, key: string) {
    Field(line).Some? && Field(line).value.0 == key
  }

  /** The dict `parsed_data` once the loop has gone through `lines`: a later line overwrites an earlier one. */
  function Fields(lines: seq<string>): map<string, string> {
    if lines == [] then map[]
    else
      var m := Fields(lines[..|lines| - 1]);
      match Field(lines[|lines| - 1])
      case None => m
      case Some((key, value)) => m[key := value]
  }

  /**
   * The value of a kept line is never empty: the line does not end in
   * whitespace, so it cannot end with the space of `": "`.
   */
  lemma FieldValueNonEmpty(line: string)
    requires Trimmed(line) && Field(line).Some?
    ensures Field(line).value.1 != []
  {
    var i: nat :| FirstSeparator(line, i) && Field(line).value == (Lower(line[..i]), line[i + |Separator|..]);
    assert line[i + 1] == line[i..i + |Separator|][1] == ' ';
    assert line[|line| - 1] != line[i + 1];
    assert |line[i + |Separator|..]| > 0;
  }

  /** Filled from kept lines, the dict holds no empty value. */
  lemma {:induction false} FieldsNonEmpty(lines: seq<string>)
    requires forall l <- lines :: Trimmed(l)
    ensures forall key <- Fields(lines) :: Fields(lines)[key] != []
  {
    if lines != [] {
      var last := lines[|lines| - 1];
      assert forall l <- lines[..|lines| - 1] :: l in lines;
      FieldsNonEmpty(lines[..|lines| - 1]);
      assert last in lines;
      if Field(last).Some? {
        FieldValueNonEmpty(last);
      }
    }
  }

  /** `d.get(key, default)` on the dict. */
  function Lookup(fields: map<string, string>, key: string, default: string): string {
    if key in fields then fields[key] else default
  }

  /**
   * The keys the stage returns once the dict is filled: `city`, `days` and
   * `interests`, with the defaults for missing keys; or the ValueError of
   * `int()` when the days text is not an integer. No check keeps days positive.
   */
  function Resolve(fields: map<string, string>): (r: Result<GraphState, ParseError>)
    ensures r.Err? <==> "days" in fields && ParseInt(fields["days"]).None?
    ensures r.Ok? ==> r.value.city.Some? && r.value.days.Some? && r.value.interests.Some?
    ensures r.Ok? ==> r.value.userRequest.None? && r.value.weatherData.None? && r.value.activityPreference.None?
    ensures r.Ok? ==> r.value.activities.None? && r.value.finalItinerary.None? && r.value.searchIterations.None?
  {
    var days := if "days" in fields then ParseInt(fields["days"]) else Some(DefaultDays);
    if days.None? then Err(DaysNotInteger(fields["days"]))
    else
      Ok(NoFields.(
        city := Some(Lookup(fields, "city", DefaultCity)),
        days := Some(days.value),
        interests := Some(Lookup(fields, "interests", DefaultInterests))))
  }

  /** The stage's result for the reply `content`. */
  function ParseUpdate(content: string): Result<GraphState, ParseError> {
    Resolve(Fields(ReplyLines(content)))
  }

  /** From a dict without empty values, `Resolve` gives a non-empty city and interests text. */
  lemma ResolveNonEmpty(fields: map<string, string>)
    requires forall key <- fields :: fields[key] != []
    ensures Resolve(fields).Ok? ==> Resolve(fields).value.city.value != [] && Resolve(fields).value.interests.value != []
  {
  }

  /**
   * A parsed city and a parsed interests text are never empty: each is
   * either the value of a kept line, which `FieldValueNonEmpty` shows is not
   * empty, or the non-empty default.
   */
  lemma ParsedTextNonEmpty(content: string)
    requires ParseUpdate(content).Ok?
    ensures ParseUpdate(content).value.city.value != []
    ensures ParseUpdate(content).value.interests.value != []
  {
    NonBlankTrimmed(Split(content, '\n'));
    FieldsNonEmpty(ReplyLines(content));
    ResolveNonEmpty(Fields(ReplyLines(content)));
  }


  /** The loop of `parse_request_node` that fills `parsed_data` from the reply's lines. */
  method CollectFields(lines: seq<string>) returns (parsed: map<string, string>)
    ensures parsed == Fields(lines)
  {
    parsed := map[];
    for n := 0 to |lines|
      invariant parsed == Fields(lines[..n])
    {
      assert lines[..n + 1][..n] == lines[..n];
      var line := lines[n];
      assert lines[..n + 1][n] == line;
      if Contains(line, Separator) {
        var i := Find(line, Separator).value;
        var key, value := line[..i], line[i + |Separator|..];
        parsed := parsed[Lower(key) := value];
      }
    }
    assert lines[..|lines|] == lines;
  }

  /** `parse_request_node` once the model has replied with `content`. */
  method ParseRequestNode(content: string) returns (r: Result<GraphState, ParseError>)
    ensures r == ParseUpdate(content)
  {
    var lines := ReplyLines(content);
    var parsed := CollectFields(lines);
    assert ParseUpdate(content) == Resolve(parsed);
    var days: int;
    if "days" in parsed {
      var d := ParseInt(parsed["days"]);
      if d.None? {
        return Err(DaysNotInteger(parsed["days"]));
      }
      days := d.value;
    } else {
      days := DefaultDays;
    }
    var city := if "city" in parsed then parsed["city"] else DefaultCity;
    var interests := if "interests" in parsed then parsed["interests"] else DefaultInterests;
    r := Ok(NoFields.(city := Some(city), days := Some(days), interests := Some(interests)));
  }

  // ---------------------------------------------------------------- the dict

  /** The last line adds its key to the dict built from the lines before it, if it has one. */
  lemma LastLineKey(lines: seq<string>, key: string)
    requires lines != []
    ensures key in Fields(lines) <==> key in Fields(lines[..|lines| - 1]) || DefinesKey(lines[|lines| - 1], key)
  {
  }

  /** A key in the dict was set by some line. */
  lemma {:induction false} KeyFromLine(lines: seq<string>, key: string)
    requires key in Fields(lines)
    ensures exists i :: 0 <= i < |lines| && DefinesKey(lines[i], key)
  {
    var init := lines[..|lines| - 1];
    LastLineKey(lines, key);
    if key in Fields(init) {
      KeyFromLine(init, key);
      var i :| 0 <= i < |init| && DefinesKey(init[i], key);
      assert lines[i] == init[i];
    } else {
      assert DefinesKey(lines[|lines| - 1], key);
    }
  }

  /** A key some line sets is in the dict. */
  lemma {:induction false} LineToKey(lines: seq<string>, i: nat, key: string)
    requires i < |lines| && DefinesKey(lines[i], key)
    ensures key in Fields(lines)
  {
    var init := lines[..|lines| - 1];
    LastLineKey(lines, key);
    if i < |init| {
      assert init[i] == lines[i];
      LineToKey(init, i, key);
    }
  }

  /** A key is in the dict exactly when some line defines it. */
  lemma KeyPresent(lines: seq<string>, key: string)
    ensures key in Fields(lines) <==> exists i :: 0 <= i < |lines| && DefinesKey(lines[i], key)
  {
    if key in Fields(lines) {
      KeyFromLine(lines, key);
    }
    if exists i :: 0 <= i < |lines| && DefinesKey(lines[i], key) {
      var i :| 0 <= i < |lines| && DefinesKey(lines[i], key);
      LineToKey(lines, i, key);
    }
  }

  /** A key maps to the value written on the last line that defines it. */
  lemma {:induction false} LastLineWins(lines: seq<string>, i: nat, key: string)
    requires i < |lines| && DefinesKey(lines[i], key)
    requires forall j :: i < j < |lines| ==> !DefinesKey(lines[j], key)
    ensures key in Fields(lines) && Fields(lines)[key] == Field(lines[i]).value.1
  {
    var init := lines[..|lines| - 1];
    if i < |lines| - 1 {
      forall j | i < j < |init|
        ensures !DefinesKey(init[j], key)
      {
        assert init[j] == lines[j];
      }
      assert init[i] == lines[i];
      LastLineWins(init, i, key);
    }
  }

  /** One more line updates the dict with its pair, if it has one. */
  lemma FieldsAppend(lines: seq<string>, line: string)
    ensures Fields(lines + [line])
         == match Field(line)
            case None => Fields(lines)
            case Some((key, value)) => Fields(lines)[key := value]
  {
    assert (lines + [line])[..|lines|] == lines;
  }

  /** A line without `": "` has no effect on the dict, wherever it stands. */
  lemma {:induction false} LineWithoutSeparatorIgnored(lines: seq<string>, i: nat)
    requires i < |lines| && !Contains(lines[i], Separator)
    ensures Fields(lines[..i] + lines[i + 1..]) == Fields(lines)
  {
    var without := lines[..i] + lines[i + 1..];
    var init := lines[..|lines| - 1];
    var last := lines[|lines| - 1];
    assert lines == init + [last];
    FieldsAppend(init, last);
    if i == |lines| - 1 {
      assert without == init;
    } else {
      assert init[i] == lines[i];
      LineWithoutSeparatorIgnored(init, i);
      assert without == (init[..i] + init[i + 1..]) + [last];
      FieldsAppend(init[..i] + init[i + 1..], last);
    }
  }

  /** A line `Key: value` whose key holds no colon sets the lower-cased key to everything after the first `": "`. */
  lemma KeyValueLine(key: string, value: string)
    requires ':' !in key
    ensures Field(key + Separator + value) == Some((Lower(key), value))
  {
    var line := key + Separator + value;
    assert line[..|key|] == key && line[|key| + |Separator|..] == value;
    assert MatchAt(line, Separator, |key|) by {
      assert line[|key|..|key| + |Separator|] == Separator;
    }
    forall j | 0 <= j < |key|
      ensures !MatchAt(line, Separator, j)
    {
      assert line[j] == key[j] != ':';
      if j + |Separator| <= |line| {
        assert line[j..j + |Separator|][0] == line[j];
      }
    }
  }

  /** A line without a colon sets nothing. */
  lemma LineWithoutColon(line: string)
    requires ':' !in line
    ensures Field(line) == None
  {
    forall j: nat ensures !MatchAt(line, Separator, j) {
      if j + |Separator| <= |line| {
        assert line[j..j + |Separator|][0] == line[j];
      }
    }
  }

  // ---------------------------------------------------------------- the stage

  /** A key no line of the reply defines takes its default. */
  lemma MissingKeysDefault(content: string)
    requires ParseUpdate(content).Ok?
    ensures var lines, u := ReplyLines(content), ParseUpdate(content).value;
      && ((forall i :: 0 <= i < |lines| ==> !DefinesKey(lines[i], "city")) ==> u.city == Some(DefaultCity))
      && ((forall i :: 0 <= i < |lines| ==> !DefinesKey(lines[i], "days")) ==> u.days == Some(DefaultDays))
      && ((forall i :: 0 <= i < |lines| ==> !DefinesKey(lines[i], "interests")) ==> u.interests == Some(DefaultInterests))
  {
    var lines := ReplyLines(content);
    assert ParseUpdate(content) == Resolve(Fields(lines));
    KeyPresent(lines, "city");
    KeyPresent(lines, "days");
    KeyPresent(lines, "interests");
  }

  /** City and interests come from the last line that defines them. */
  lemma LastCityAndInterestsWin(content: string, i: nat, key: string)
    requires key == "city" || key == "interests"
    requires var lines := ReplyLines(content);
      && i < |lines| && DefinesKey(lines[i], key)
      && forall j :: i < j < |lines| ==> !DefinesKey(lines[j], key)
    requires ParseUpdate(content).Ok?
    ensures var value := Field(ReplyLines(content)[i]).value.1;
      if key == "city" then ParseUpdate(content).value.city == Some(value)
      else ParseUpdate(content).value.interests == Some(value)
  {
    LastLineWins(ReplyLines(content), i, key);
  }

  /**
   * Days is `int()` of the last line that defines it: the stage fails exactly
   * when that text is not an integer, and otherwise keeps the number as it is,
   * zero and negative numbers included.
   */
  lemma DaysFromLastLine(content: string, i: nat)
    requires var lines := ReplyLines(content);
      && i < |lines| && DefinesKey(lines[i], "days")
      && forall j :: i < j < |lines| ==> !DefinesKey(lines[j], "days")
    ensures var text := Field(ReplyLines(content)[i]).value.1;
      match ParseInt(text)
      case None => ParseUpdate(content) == Err(DaysNotInteger(text))
      case Some(n) => ParseUpdate(content).Ok? && ParseUpdate(content).value.days == Some(n)
  {
    LastLineWins(ReplyLines(content), i, "days");
  }
}

/** The parse stage on concrete replies. */
module ParseExamples {
  import opened Wrappers
  import opened Text
  import opened Graph
  import opened ParseStage

  /** Pieces that are already stripped and non-blank all become lines. */
  lemma {:induction false} TrimmedPiecesKept(pieces: seq<string>)
    requires forall p <- pieces :: Trimmed(p)
    ensures NonBlank(pieces) == pieces
  {
    if pieces != [] {
      assert Trimmed(pieces[0]);
      StripTrimmed(pieces[0]);
      TrimmedPiecesKept(pieces[1..]);
    }
  }

  lemma LinesOf(l1: string, l2: string, l3: string)
    requires '\n' !in l1 && '\n' !in l2 && '\n' !in l3
    requires Trimmed(l1) && Trimmed(l2) && Trimmed(l3)
    ensures ReplyLines(l1 + "\n" + l2 + "\n" + l3) == [l1, l2, l3]
  {
    JoinThree(l1, l2, l3, "\n");
    SplitJoin([l1, l2, l3], '\n');
    TrimmedPiecesKept([l1, l2, l3]);
  }

  lemma FieldsOf(l1: string, l2: string, l3: string)
    requires Field(l1).Some? && Field(l2).Some? && Field(l3).Some?
    ensures Fields([l1, l2, l3])
         == map[Field(l1).value.0 := Field(l1).value.1][Field(l2).value.0 := Field(l2).value.1]
               [Field(l3).value.0 := Field(l3).value.1]
  {
    var none: seq<string> := [];
    FieldsAppend(none, l1);
    assert none + [l1] == [l1];
    FieldsAppend([l1], l2);
    assert [l1] + [l2] == [l1, l2];
    FieldsAppend([l1, l2], l3);
    assert [l1, l2] + [l3] == [l1, l2, l3];
  }

  lemma OneLine(l: string)
    requires '\n' !in l && Trimmed(l)
    ensures ReplyLines(l) == [l]
  {
    SplitWithoutSeparator(l, '\n');
    StripTrimmed(l);
    var none: seq<string> := [];
    assert [l][1..] == none;
    assert NonBlank([l]) == [l] + NonBlank(none);
  }

  lemma FieldsOfOne(l: string)
    ensures Fields([l]) == match Field(l) case None => map[] case Some((key, value)) => map[key := value]
  {
    var none: seq<string> := [];
    assert [l][..0] == none;
  }

  // The reply of the test suite, `City: Paris`, `Days: 3`, `Interests: museums, cafes`, one step at a time.

  lemma ParisReply()
    ensures "City: Paris\nDays: 3\nInterests: museums, cafes" == "City: Paris" + "\n" + "Days: 3" + "\n" + "Interests: museums, cafes"
  {
  }

  lemma ParisLines()
    ensures ReplyLines("City: Paris" + "\n" + "Days: 3" + "\n" + "Interests: museums, cafes")
         == ["City: Paris", "Days: 3", "Interests: museums, cafes"]
  {
    LinesOf("City: Paris", "Days: 3", "Interests: museums, cafes");
  }

  lemma CityLine()
    ensures Field("City: Paris") == Some(("city", "Paris"))
  {
    assert "City: Paris" == "City" + Separator + "Paris";
    assert Lower("City") == "city";
    KeyValueLine("City", "Paris");
  }

  lemma DaysLine()
    ensures Field("Days: 3") == Some(("days", "3"))
  {
    assert "Days: 3" == "Days" + Separator + "3";
    assert Lower("Days") == "days";
    KeyValueLine("Days", "3");
  }

  lemma InterestsLine()
    ensures Field("Interests: museums, cafes") == Some(("interests", "museums, cafes"))
  {
    assert "Interests: museums, cafes" == "Interests" + Separator + "museums, cafes";
    assert Lower("Interests") == "interests";
    KeyValueLine("Interests", "museums, cafes");
  }

  lemma ParisFields()
    ensures Fields(["City: Paris", "Days: 3", "Interests: museums, cafes"])
         == map["city" := "Paris", "days" := "3", "interests" := "museums, cafes"]
  {
    CityLine();
    DaysLine();
    InterestsLine();
    FieldsOf("City: Paris", "Days: 3", "Interests: museums, cafes");
  }

  lemma ParisResolve()
    ensures Resolve(map["city" := "Paris", "days" := "3", "interests" := "museums, cafes"])
         == Ok(NoFields.(city := Some("Paris"), days := Some(3), interests := Some("museums, cafes")))
  {
    IntTrimTrimmed("3");
  }

  /** The reply of the test suite yields Paris, 3 days and the interests text as written. */
  lemma ParisExample()
    ensures ParseUpdate("City: Paris\nDays: 3\nInterests: museums, cafes")
         == Ok(NoFields.(city := Some("Paris"), days := Some(3), interests := Some("museums, cafes")))
  {
    ParisReply();
    ParisLines();
    ParisFields();
    ParisResolve();
  }

  lemma ZeroDaysField()
    ensures Field("DAYS: 0") == Some(("days", "0"))
  {
    assert "DAYS: 0" == "DAYS" + Separator + "0";
    assert Lower("DAYS") == "days";
    KeyValueLine("DAYS", "0");
  }

  lemma ZeroDaysLine()
    ensures ReplyLines("DAYS: 0") == ["DAYS: 0"]
    ensures Field("DAYS: 0") == Some(("days", "0"))
  {
    OneLine("DAYS: 0");
    ZeroDaysField();
  }

  lemma ZeroDaysResolve()
    ensures Resolve(map["days" := "0"])
         == Ok(NoFields.(city := Some(DefaultCity), days := Some(0), interests := Some(DefaultInterests)))
  {
    IntTrimTrimmed("0");
  }

  /** An upper-case key is read, and zero days is kept: nothing requires at least one day. */
  lemma ZeroDaysKept()
    ensures ParseUpdate("DAYS: 0")
         == Ok(NoFields.(city := Some(DefaultCity), days := Some(0), interests := Some(DefaultInterests)))
  {
    ZeroDaysLine();
    FieldsOfOne("DAYS: 0");
    ZeroDaysResolve();
  }

  lemma WordDaysField()
    ensures Field("Days: three") == Some(("days", "three"))
  {
    assert "Days: three" == "Days" + Separator + "three";
    assert Lower("Days") == "days";
    KeyValueLine("Days", "three");
  }

  lemma WordDaysLine()
    ensures ReplyLines("Days: three") == ["Days: three"]
    ensures Field("Days: three") == Some(("days", "three"))
  {
    OneLine("Days: three");
    WordDaysField();
  }

  lemma WordDaysResolve()
    ensures Resolve(map["days" := "three"]) == Err(DaysNotInteger("three"))
  {
    IntTrimTrimmed("three");
    assert !IsDigit("three"[0]);
  }

  /** Days spelled out in words is not defaulted: `int()` fails, and so does the stage. */
  lemma WordDaysFail()
    ensures ParseUpdate("Days: three") == Err(DaysNotInteger("three"))
  {
    WordDaysLine();
    FieldsOfOne("Days: three");
    WordDaysResolve();
  }

  lemma NoColonInName()
    ensures ':' !in "Paris"
  {
  }

  lemma NoFieldLine()
    ensures ReplyLines("Paris") == ["Paris"]
    ensures Field("Paris") == None
  {
    OneLine("Paris");
    NoColonInName();
    LineWithoutColon("Paris");
  }

  /** A reply without any `Key: value` line, even one naming the city, leaves every key at its default. */
  lemma AllDefaults()
    ensures ParseUpdate("Paris")
         == Ok(NoFields.(city := Some(DefaultCity), days := Some(DefaultDays), interests := Some(DefaultInterests)))
  {
    NoFieldLine();
    FieldsOfOne("Paris");
  }
}
