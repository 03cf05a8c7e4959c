/** The request bodies of the job-review endpoints: the four enums with their
    wire names, and the bounds and defaults `JobReviewCreate` and
    `JobReviewUpdate` declare. */
module JobReviewSchema {

  import opened Common
  import opened Models

  function ExperienceLevelName(e: ExperienceLevel): string {
    match e
    case Entry => "entry"
    case Experienced => "experienced"
  }

  /** `ExperienceLevel(s)`: the member whose value is `s`, if any. */
  function ParseExperienceLevel(s: string): (r: Option<ExperienceLevel>)
    ensures forall e :: r == Some(e) <==> ExperienceLevelName(e) == s
  {
    if s == "entry" then Some(Entry)
    else if s == "experienced" then Some(Experienced)
    else None
  }

  function OverallEvaluationName(e: OverallEvaluation): string {
    match e
    case Positive => "positive"
    case Neutral => "neutral"
    case Negative => "negative"
  }

  function ParseOverallEvaluation(s: string): (r: Option<OverallEvaluation>)
    ensures forall e :: r == Some(e) <==> OverallEvaluationName(e) == s
  {
    if s == "positive" then Some(Positive)
    else if s == "neutral" then Some(Neutral)
    else if s == "negative" then Some(Negative)
    else None
  }

  function DifficultyName(e: Difficulty): string {
    match e
    case Easy => "easy"
    case Medium => "medium"
    case Hard => "hard"
  }

  function ParseDifficulty(s: string): (r: Option<Difficulty>)
    ensures forall e :: r == Some(e) <==> DifficultyName(e) == s
  {
    if s == "easy" then Some(Easy)
    else if s == "medium" then Some(Medium)
    else if s == "hard" then Some(Hard)
    else None
  }

  function FinalResultName(e: FinalResult): string {
    match e
    case FinalPass => "final_pass"
    case SecondPass => "second_pass"
    case FirstPass => "first_pass"
    case Fail => "fail"
  }

  function ParseFinalResult(s: string): (r: Option<FinalResult>)
    ensures forall e :: r == Some(e) <==> FinalResultName(e) == s
  {
    if s == "final_pass" then Some(FinalPass)
    else if s == "second_pass" then Some(SecondPass)
    else if s == "first_pass" then Some(FirstPass)
    else if s == "fail" then Some(Fail)
    else None
  }

  const MaxCompanyName := 100
  const MaxPosition := 100
  const MaxQuestion := 1000
  const MinPositions := 1
  const MaxPositions := 5
  const MinReviewLength := 10
  const MaxReviewLength := 5000

  /** `List[JobPositionCreate]` with `min_items=1, max_items=5`. */
  predicate PositionListValid(ps: seq<string>) {
    MinPositions <= |ps| <= MaxPositions && forall k :: 0 <= k < |ps| ==> |ps[k]| <= MaxPosition
  }

  /** `List[InterviewQuestionCreate]`: no bound on the count. */
  predicate QuestionListValid(qs: seq<string>) {
    forall k :: 0 <= k < |qs| ==> |qs[k]| <= MaxQuestion
  }

  predicate ReviewTextValid(s: string) {
    MinReviewLength <= |s| <= MaxReviewLength
  }

  /** Which body fields failed validation, one flag per constrained field. */
  datatype Failures = Failures(
    companyName: bool, positions: bool, experienceLevel: bool, overallEvaluation: bool,
    difficulty: bool, interviewQuestions: bool, interviewReview: bool, finalResult: bool)

  predicate AnyFailed(f: Failures) {
    f.companyName || f.positions || f.experienceLevel || f.overallEvaluation
    || f.difficulty || f.interviewQuestions || f.interviewReview || f.finalResult
  }

  /** `JobReviewCreate` once validated. */
  datatype ReviewCreate = ReviewCreate(
    applicationId: Option<int>, companyName: string, positions: seq<string>,
    experienceLevel: ExperienceLevel, interviewDate: Date, overallEvaluation: OverallEvaluation,
    difficulty: Difficulty, interviewQuestions: seq<string>, interviewReview: string,
    finalResult: FinalResult)

  /** Validation of a create body whose fields arrive already typed, the
      enums as their wire strings and `interview_questions` possibly absent.
      The error flags every field that failed. */
  function MakeReviewCreate(
    applicationId: Option<int>, companyName: string, positions: seq<string>, experienceLevel: string,
    interviewDate: Date, overallEvaluation: string, difficulty: string,
    interviewQuestions: Option<seq<string>>, interviewReview: string, finalResult: string)
    : (r: Result<ReviewCreate, Failures>)
    ensures r.Ok? <==>
              |companyName| <= MaxCompanyName && PositionListValid(positions)
              && ParseExperienceLevel(experienceLevel).Some? && ParseOverallEvaluation(overallEvaluation).Some?
              && ParseDifficulty(difficulty).Some? && ParseFinalResult(finalResult).Some?
              && (interviewQuestions.None? || QuestionListValid(interviewQuestions.value))
              && ReviewTextValid(interviewReview)
    ensures r.Ok? ==>
              var c := r.value;
              c.applicationId == applicationId && c.companyName == companyName && c.positions == positions
              && c.interviewDate == interviewDate && c.interviewReview == interviewReview
              && ExperienceLevelName(c.experienceLevel) == experienceLevel
              && OverallEvaluationName(c.overallEvaluation) == overallEvaluation
              && DifficultyName(c.difficulty) == difficulty
              && FinalResultName(c.finalResult) == finalResult
              && c.interviewQuestions == (if interviewQuestions.Some? then interviewQuestions.value else [])
    ensures r.Err? ==>
              AnyFailed(r.error)
              && r.error.companyName == (|companyName| > MaxCompanyName)
              && r.error.positions == !PositionListValid(positions)
              && r.error.experienceLevel == ParseExperienceLevel(experienceLevel).None?
              && r.error.overallEvaluation == ParseOverallEvaluation(overallEvaluation).None?
              && r.error.difficulty == ParseDifficulty(difficulty).None?
              && r.error.interviewQuestions == (interviewQuestions.Some? && !QuestionListValid(interviewQuestions.value))
              && r.error.interviewReview == !ReviewTextValid(interviewReview)
              && r.error.finalResult == ParseFinalResult(finalResult).None?
  {
    var level := ParseExperienceLevel(experienceLevel);
    var evaluation := ParseOverallEvaluation(overallEvaluation);
    var diff := ParseDifficulty(difficulty);
    var result := ParseFinalResult(finalResult);
    var questions := if interviewQuestions.Some? then interviewQuestions.value else [];
    var failed := Failures(
      |companyName| > MaxCompanyName, !PositionListValid(positions), level.None?, evaluation.None?,
      diff.None?, !QuestionListValid(questions), !ReviewTextValid(interviewReview), result.None?);
    if AnyFailed(failed) then Err(failed)
    else
      Ok(ReviewCreate(applicationId, companyName, positions, level.value, interviewDate, evaluation.value,
                      diff.value, questions, interviewReview, result.value))
  }

  /** `JobReviewUpdate` once validated: `None` is a field the body left unset. */
  datatype ReviewUpdate = ReviewUpdate(
    companyName: Option<string>, positions: Option<seq<string>>, experienceLevel: Option<ExperienceLevel>,
    interviewDate: Option<Date>, overallEvaluation: Option<OverallEvaluation>, difficulty: Option<Difficulty>,
    interviewQuestions: Option<seq<string>>, interviewReview: Option<string>, finalResult: Option<FinalResult>)

  /** Validation of an update body: each bound of the create body applies to
      a field only when the body sets it. The enum fields arrive as members
      (an unknown wire string is refused by the `Parse` functions above). */
  function MakeReviewUpdate(
    companyName: Option<string>, positions: Option<seq<string>>, experienceLevel: Option<ExperienceLevel>,
    interviewDate: Option<Date>, overallEvaluation: Option<OverallEvaluation>, difficulty: Option<Difficulty>,
    interviewQuestions: Option<seq<string>>, interviewReview: Option<string>, finalResult: Option<FinalResult>)
    : (r: Result<ReviewUpdate, Failures>)
    ensures r.Ok? <==>
              (companyName.Some? ==> |companyName.value| <= MaxCompanyName)
              && (positions.Some? ==> PositionListValid(positions.value))
              && (interviewQuestions.Some? ==> QuestionListValid(interviewQuestions.value))
              && (interviewReview.Some? ==> ReviewTextValid(interviewReview.value))
    ensures r.Ok? ==>
              r.value == ReviewUpdate(companyName, positions, experienceLevel, interviewDate, overallEvaluation,
                                      difficulty, interviewQuestions, interviewReview, finalResult)
    ensures r.Err? ==>
              AnyFailed(r.error)
              && r.error.companyName == (companyName.Some? && |companyName.value| > MaxCompanyName)
              && r.error.positions == (positions.Some? && !PositionListValid(positions.value))
              && r.error.interviewQuestions ==
                   (interviewQuestions.Some? && !QuestionListValid(interviewQuestions.value))
              && r.error.interviewReview == (interviewReview.Some? && !ReviewTextValid(interviewReview.value))
              && !r.error.experienceLevel && !r.error.overallEvaluation && !r.error.difficulty && !r.error.finalResult
  {
    var failed := Failures(
      companyName.Some? && |companyName.value| > MaxCompanyName,
      positions.Some? && !PositionListValid(positions.value),
      false, false, false,
      interviewQuestions.Some? && !QuestionListValid(interviewQuestions.value),
      interviewReview.Some? && !ReviewTextValid(interviewReview.value),
      false);
    if AnyFailed(failed) then Err(failed)
    else
      Ok(ReviewUpdate(companyName, positions, experienceLevel, interviewDate, overallEvaluation, difficulty,
                      interviewQuestions, interviewReview, finalResult))
  }
}
