/** Per-attempt validation and scoring (main.ts, lines 990-1065).

    Three checks run in turn, each only when the previous one passed: the
    trimmed reply parses as JSON, the parsed value conforms to the test
    case's schema, and it deep-equals the expected value.  The JSON parser,
    the schema validator and the deep-equality assertion are library code;
    they are parameters here, so every property below holds whatever they
    decide.
 */
module Scoring {

  import opened Options
  import opened Types

  datatype Validations = Validations(hasValidJsonFormat: bool, hasValidSchema: bool, hasValidData: bool)

  /** The fields of the inference reply the benchmark reads.  A failed request
      is replaced by an empty object, so both are absent. */
  datatype Completion = Completion(response: Option<string>, totalDuration: Option<int>)

  const FailedRequest := Completion(None, None)

  /** Each flag implies the one before it. */
  predicate Cascades(v: Validations) {
    && (v.hasValidSchema ==> v.hasValidJsonFormat)
    && (v.hasValidData ==> v.hasValidSchema)
  }

  /** The three gated checks.  `parseTrimmed` stands for
      `JSON.parse(completion.trim())` (`None` when it throws), `conforms`
      for the compiled schema validator and `matchesExpected` for the
      `assertEquals` call against the expected value. */
  function Validate<J>(
    completion: Option<string>, parseTrimmed: string -> Option<J>, conforms: J -> bool, matchesExpected: J -> bool)
    : (v: Validations)
    ensures Cascades(v)
    ensures completion.None? || completion == Some("") ==> v == Validations(false, false, false)
    ensures v.hasValidJsonFormat <==> completion.Some? && completion.value != "" && parseTrimmed(completion.value).Some?
    ensures v.hasValidSchema <==> v.hasValidJsonFormat && conforms(parseTrimmed(completion.value).value)
    ensures v.hasValidData <==> v.hasValidSchema && matchesExpected(parseTrimmed(completion.value).value)
  {
    // all three start false; an absent or empty reply is never parsed
    var parsed := if completion.Some? && completion.value != "" then parseTrimmed(completion.value) else None;
    var hasValidJsonFormat := parsed.Some?;
    var hasValidSchema := if hasValidJsonFormat then conforms(parsed.value) else false;
    var hasValidData := if hasValidSchema then matchesExpected(parsed.value) else false;
    Validations(hasValidJsonFormat, hasValidSchema, hasValidData)
  }

  /** The keys of the `validations` object, in insertion order. */
  datatype Flag = JsonFormat | Schema | Data

  /** `Object.entries(validations)`. */
  function Entries(v: Validations): seq<(Flag, bool)> {
    [(JsonFormat, v.hasValidJsonFormat), (Schema, v.hasValidSchema), (Data, v.hasValidData)]
  }

  /** The reducer applied to each entry. */
  function ScoreStep(acc: int, entry: (Flag, bool)): int {
    var (key, value) := entry;
    if key == JsonFormat && value then acc + (if value then 10 else 0)
    else if key == Schema && value then acc + (if value then 30 else 0)
    else if key == Data && value then acc + (if value then 60 else 0)
    else acc
  }

  function FoldScore(acc: int, entries: seq<(Flag, bool)>): int
    decreases |entries|
  {
    if |entries| == 0 then acc else FoldScore(ScoreStep(acc, entries[0]), entries[1..])
  }

  /** Points earned per flag, each counted on its own. */
  function Weighted(json: bool, schema: bool, data: bool): int {
    (if json then 10 else 0) + (if schema then 30 else 0) + (if data then 60 else 0)
  }

  /** `Object.entries(validations).reduce(..., 0)`: the additive 10/30/60
      score, between 0 and 100. */
  function AbsoluteScore(v: Validations): (score: int)
    ensures score == Weighted(v.hasValidJsonFormat, v.hasValidSchema, v.hasValidData)
    ensures 0 <= score <= 100
  {
    var entries := Entries(v);
    var afterJson := ScoreStep(0, entries[0]);
    var afterSchema := ScoreStep(afterJson, entries[1]);
    var afterData := ScoreStep(afterSchema, entries[2]);
    assert FoldScore(afterData, entries[1..][1..][1..]) == afterData;
    assert FoldScore(afterSchema, entries[1..][1..]) == afterData;
    assert FoldScore(afterJson, entries[1..]) == afterData;
    FoldScore(0, entries)
  }

  /** `Object.values(validations).every((value) => value)`. */
  function IsSuccessful(v: Validations): (ok: bool)
    ensures ok <==> v.hasValidJsonFormat && v.hasValidSchema && v.hasValidData
  {
    var values := [v.hasValidJsonFormat, v.hasValidSchema, v.hasValidData];
    assert values[0] == v.hasValidJsonFormat && values[1] == v.hasValidSchema && values[2] == v.hasValidData;
    forall i | 0 <= i < |values| :: values[i]
  }

  /** The record invariant every logged attempt satisfies. */
  predicate WellFormed(a: Attempt) {
    && (a.hasValidSchema ==> a.hasValidJsonFormat)
    && (a.hasValidData ==> a.hasValidSchema)
    && a.absoluteScore == Weighted(a.hasValidJsonFormat, a.hasValidSchema, a.hasValidData)
    && a.relativeScore == a.absoluteScore * a.difficultyLevel
    && (a.isSuccessful <==> a.hasValidJsonFormat && a.hasValidSchema && a.hasValidData)
  }

  /** The record logged for one attempt. */
  function MakeAttempt<J>(
    model: string, difficultyLevel: int, iteration: int, completion: Completion,
    parseTrimmed: string -> Option<J>, conforms: J -> bool, matchesExpected: J -> bool)
    : (a: Attempt)
    ensures a.model == model && a.difficultyLevel == difficultyLevel && a.iteration == iteration
    ensures a.duration == completion.totalDuration
    ensures var v := Validate(completion.response, parseTrimmed, conforms, matchesExpected);
      a.hasValidJsonFormat == v.hasValidJsonFormat && a.hasValidSchema == v.hasValidSchema
      && a.hasValidData == v.hasValidData
    ensures WellFormed(a)
  {
    var validations := Validate(completion.response, parseTrimmed, conforms, matchesExpected);
    var absoluteScore := AbsoluteScore(validations);
    var relativeScore := absoluteScore * difficultyLevel;
    var isSuccessful := IsSuccessful(validations);
    Attempt(model, difficultyLevel, iteration, completion.totalDuration,
            validations.hasValidJsonFormat, validations.hasValidSchema, validations.hasValidData,
            absoluteScore, relativeScore, isSuccessful)
  }

  /** With the checks gated, only four scores occur: nothing, valid JSON,
      valid schema, or an exact match. */
  lemma ScoreTiers(v: Validations)
    requires Cascades(v)
    ensures AbsoluteScore(v) in {0, 10, 40, 100}
    ensures AbsoluteScore(v) == 0 <==> !v.hasValidJsonFormat
    ensures AbsoluteScore(v) == 10 <==> v.hasValidJsonFormat && !v.hasValidSchema
    ensures AbsoluteScore(v) == 40 <==> v.hasValidSchema && !v.hasValidData
    ensures AbsoluteScore(v) == 100 <==> v.hasValidData
  {
  }

  /** An attempt succeeds exactly when it earns the full 100 points. */
  lemma SuccessIsFullScore(v: Validations)
    ensures IsSuccessful(v) <==> AbsoluteScore(v) == 100
  {
  }

  /** A well-formed record's scores take one of the four tiers, and its
      success flag coincides with the data check. */
  lemma WellFormedScores(a: Attempt)
    requires WellFormed(a)
    ensures a.absoluteScore in {0, 10, 40, 100}
    ensures a.relativeScore in {0, 10 * a.difficultyLevel, 40 * a.difficultyLevel, 100 * a.difficultyLevel}
    ensures a.isSuccessful <==> a.hasValidData
    ensures a.isSuccessful <==> a.absoluteScore == 100
  {
  }

  /** A failed request, or an empty reply, is logged as a normal attempt
      with every flag false and no points; a failed request also has no
      duration. */
  lemma FailedAttemptScoresNothing<J>(
    model: string, difficultyLevel: int, iteration: int, completion: Completion,
    parseTrimmed: string -> Option<J>, conforms: J -> bool, matchesExpected: J -> bool)
    requires completion.response.None? || completion.response == Some("")
    ensures var a := MakeAttempt(model, difficultyLevel, iteration, completion, parseTrimmed, conforms, matchesExpected);
      && !a.hasValidJsonFormat && !a.hasValidSchema && !a.hasValidData && !a.isSuccessful
      && a.absoluteScore == 0 && a.relativeScore == 0
      && (completion == FailedRequest ==> a.duration.None?)
  {
  }

  lemma ScoreExamples()
    ensures AbsoluteScore(Validations(false, false, false)) == 0
    ensures AbsoluteScore(Validations(true, false, false)) == 10
    ensures AbsoluteScore(Validations(true, true, false)) == 40
    ensures AbsoluteScore(Validations(true, true, true)) == 100
  {
  }
}
