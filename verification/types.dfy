/** The attempt record (`Result` in types.ts): one line of a results log,
    written once per model, difficulty level and iteration. */
module Types {

  import opened Options

  datatype Attempt = Attempt(
    model: string,
    difficultyLevel: int,
    iteration: int,
    duration: Option<int>,          // nanoseconds; absent when the request failed
    hasValidJsonFormat: bool,
    hasValidSchema: bool,
    hasValidData: bool,
    absoluteScore: int,
    relativeScore: int,
    isSuccessful: bool)
}
