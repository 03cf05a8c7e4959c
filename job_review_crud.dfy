/** The `job_reviews` table with its `job_positions` and
    `interview_questions` children: create with the application checks,
    owner-scoped update and delete, the owner's and the public listings,
    and the applications still open for a review. */
module JobReviewCrud {

  import opened Common
  import opened Models
  import opened Text
  import opened JobReviewSchema

  const ApplicationNotFound := "해당 지원서를 찾을 수 없습니다."
  const ReviewAlreadyWritten := "이미 해당 지원에 대한 후기가 작성되었습니다."

  /** Why a create is refused: a `ValueError` the crud raises, or a row the
      database's keys reject at the insert. */
  datatype ReviewError = Invalid(message: string) | ConstraintViolation

  /** `if review.application_id:` — present and not 0. */
  predicate Truthy(id: Option<int>) {
    id.Some? && id.value != 0
  }

  predicate OwnsApplication(apps: seq<CompanyApplication>, id: int, userId: string) {
    exists k :: 0 <= k < |apps| && apps[k].id == id && apps[k].userId == userId
  }

  predicate ApplicationExists(apps: seq<CompanyApplication>, id: int) {
    exists k :: 0 <= k < |apps| && apps[k].id == id
  }

  /** Some review points at the application. */
  predicate Reviewed(reviews: seq<JobReview>, applicationId: int) {
    exists k :: 0 <= k < |reviews| && reviews[k].applicationId == Some(applicationId)
  }

  predicate IsPersonal(personals: seq<PersonalUser>, userId: string) {
    exists k :: 0 <= k < |personals| && personals[k].userId == userId
  }

  /** The keys of `job_reviews` accept a new row: `user_id` names a personal
      user, and a present `application_id` names an application that no
      review holds yet. */
  predicate KeysAccept(reviews: seq<JobReview>, apps: seq<CompanyApplication>, personals: seq<PersonalUser>,
                       userId: string, applicationId: Option<int>) {
    IsPersonal(personals, userId)
    && (applicationId.Some? ==> ApplicationExists(apps, applicationId.value) && !Reviewed(reviews, applicationId.value))
  }

  /** What `create_job_review` refuses, in the order its checks run, then
      what the insert refuses. */
  function CreateRefusal(reviews: seq<JobReview>, apps: seq<CompanyApplication>, personals: seq<PersonalUser>,
                         userId: string, applicationId: Option<int>): (r: Option<ReviewError>)
    ensures r.None? <==>
              KeysAccept(reviews, apps, personals, userId, applicationId)
              && (Truthy(applicationId) ==> OwnsApplication(apps, applicationId.value, userId))
    ensures r == Some(Invalid(ApplicationNotFound)) <==>
              Truthy(applicationId) && !OwnsApplication(apps, applicationId.value, userId)
    ensures r == Some(Invalid(ReviewAlreadyWritten)) <==>
              Truthy(applicationId) && OwnsApplication(apps, applicationId.value, userId)
              && Reviewed(reviews, applicationId.value)
    ensures r.Some? ==> r.value.ConstraintViolation? || r.value.message in {ApplicationNotFound, ReviewAlreadyWritten}
  {
    if Truthy(applicationId) && !OwnsApplication(apps, applicationId.value, userId) then
      Some(Invalid(ApplicationNotFound))
    else if Truthy(applicationId) && Reviewed(reviews, applicationId.value) then
      Some(Invalid(ReviewAlreadyWritten))
    else if !KeysAccept(reviews, apps, personals, userId, applicationId) then
      Some(ConstraintViolation)
    else None
  }

  function ReviewId(r: JobReview): int { r.id }
  function PositionParent(p: JobPosition): int { p.jobReviewId }
  function QuestionParent(q: InterviewQuestion): int { q.jobReviewId }

  /** The `unique_review_per_application` constraint. */
  ghost predicate OneReviewPerApplication(reviews: seq<JobReview>) {
    forall i, j :: 0 <= i < j < |reviews| && reviews[i].applicationId.Some? ==>
      reviews[i].applicationId != reviews[j].applicationId
  }

  ghost predicate ReviewsValid(reviews: seq<JobReview>, nextId: int) {
    nextId >= 1
    && (forall k :: 0 <= k < |reviews| ==> 1 <= reviews[k].id < nextId)
    && DistinctBy(reviews, ReviewId) && OneReviewPerApplication(reviews)
  }

  /** `job_positions`: ids below the next one, each row pointing at a review
      id already handed out. */
  ghost predicate PositionRowsValid(rows: seq<JobPosition>, nextId: int, nextReviewId: int) {
    nextId >= 1 && forall p :: p in rows ==> 1 <= p.id < nextId && p.jobReviewId < nextReviewId
  }

  /** `interview_questions`, likewise. */
  ghost predicate QuestionRowsValid(rows: seq<InterviewQuestion>, nextId: int, nextReviewId: int) {
    nextId >= 1 && forall q :: q in rows ==> 1 <= q.id < nextId && q.jobReviewId < nextReviewId
  }

  /** The rows of a child table that belong to one review. */
  function ChildOf<T>(parent: T -> int, reviewId: int): T -> bool {
    (x: T) => parent(x) == reviewId
  }

  function NotChildOf<T>(parent: T -> int, reviewId: int): T -> bool {
    (x: T) => parent(x) != reviewId
  }

  /** `review.positions`, in table order. */
  function PositionsOf(rows: seq<JobPosition>, reviewId: int): seq<JobPosition> {
    Filter(rows, ChildOf(PositionParent, reviewId))
  }

  /** `review.interview_questions`, in table order. */
  function QuestionsOf(rows: seq<InterviewQuestion>, reviewId: int): seq<InterviewQuestion> {
    Filter(rows, ChildOf(QuestionParent, reviewId))
  }

  /** The rows one `db.add(JobPosition(...))` per item inserts. */
  function PositionRows(firstId: int, reviewId: int, ps: seq<string>): seq<JobPosition> {
    seq(|ps|, k requires 0 <= k < |ps| => JobPosition(firstId + k, reviewId, ps[k]))
  }

  function QuestionRows(firstId: int, reviewId: int, qs: seq<string>): seq<InterviewQuestion> {
    seq(|qs|, k requires 0 <= k < |qs| => InterviewQuestion(firstId + k, reviewId, qs[k]))
  }

  /** `[pos.position for pos in review.positions]`. */
  function PositionNames(rows: seq<JobPosition>): seq<string> {
    seq(|rows|, k requires 0 <= k < |rows| => rows[k].position)
  }

  /** Rows appended for a review no older row points at are exactly that
      review's children. */
  lemma ChildrenOfAppended<T(!new)>(before: seq<T>, added: seq<T>, parent: T -> int, reviewId: int)
    requires forall x :: x in before ==> parent(x) != reviewId
    requires forall x :: x in added ==> parent(x) == reviewId
    ensures Filter(before + added, ChildOf(parent, reviewId)) == added
  {
    FilterAppend(before, added, ChildOf(parent, reviewId));
    FilterNoneKept(before, ChildOf(parent, reviewId));
    FilterAllKept(added, ChildOf(parent, reviewId));
  }

  /** The input items come back, in order, as the names of the new review's positions. */
  lemma PositionRowsNames(firstId: int, reviewId: int, ps: seq<string>)
    ensures PositionNames(PositionRows(firstId, reviewId, ps)) == ps
  {
  }

  /** A review together with its children, as the eager-loaded query returns it. */
  datatype ReviewDetail = ReviewDetail(review: JobReview, positions: seq<JobPosition>, questions: seq<InterviewQuestion>)

  /** `.filter(p).first()` on `job_reviews`, with both children loaded. */
  function DetailOf(reviews: seq<JobReview>, positions: seq<JobPosition>, questions: seq<InterviewQuestion>,
                    p: JobReview -> bool): (r: Option<ReviewDetail>)
    ensures r.Some? <==> exists k :: 0 <= k < |reviews| && p(reviews[k])
    ensures r.Some? ==> r.value.review in reviews && p(r.value.review)
                        && r.value.positions == PositionsOf(positions, r.value.review.id)
                        && r.value.questions == QuestionsOf(questions, r.value.review.id)
  {
    match FindFirst(reviews, p)
    case None => None
    case Some(i) =>
      var x := reviews[i];
      Some(ReviewDetail(x, PositionsOf(positions, x.id), QuestionsOf(questions, x.id)))
  }

  function WithId(id: int): JobReview -> bool {
    (r: JobReview) => r.id == id
  }

  function ForApplication(applicationId: int): JobReview -> bool {
    (r: JobReview) => r.applicationId == Some(applicationId)
  }

  /** The row filter `id == review_id AND user_id == user_id`. */
  function OwnedReview(id: int, userId: string): JobReview -> bool {
    (r: JobReview) => r.id == id && r.userId == userId
  }

  predicate OwnsReview(reviews: seq<JobReview>, id: int, userId: string) {
    exists k :: 0 <= k < |reviews| && reviews[k].id == id && reviews[k].userId == userId
  }

  /** One explicitly set scalar of `JobReviewUpdate`. */
  datatype ReviewField =
    | SetCompanyName(companyName: string)
    | SetExperienceLevel(experienceLevel: ExperienceLevel)
    | SetInterviewDate(interviewDate: Date)
    | SetOverallEvaluation(overallEvaluation: OverallEvaluation)
    | SetDifficulty(difficulty: Difficulty)
    | SetInterviewReview(interviewReview: string)
    | SetFinalResult(finalResult: FinalResult)

  /** `setattr(db_review, field, value)`. */
  function ApplyField(r: JobReview, f: ReviewField): JobReview {
    match f
    case SetCompanyName(v) => r.(companyName := v)
    case SetExperienceLevel(v) => r.(experienceLevel := v)
    case SetInterviewDate(v) => r.(interviewDate := v)
    case SetOverallEvaluation(v) => r.(overallEvaluation := v)
    case SetDifficulty(v) => r.(difficulty := v)
    case SetInterviewReview(v) => r.(interviewReview := v)
    case SetFinalResult(v) => r.(finalResult := v)
  }

  /** The `setattr` loop over `update_data.items()`, in order. */
  function ApplyFields(r: JobReview, fs: seq<ReviewField>): (x: JobReview)
    ensures x.id == r.id && x.userId == r.userId && x.applicationId == r.applicationId
    ensures x.createdAt == r.createdAt && x.updatedAt == r.updatedAt
  {
    if fs == [] then r else ApplyField(ApplyFields(r, fs[..|fs| - 1]), fs[|fs| - 1])
  }

  lemma {:induction false} ApplyFieldsAppend(r: JobReview, a: seq<ReviewField>, b: seq<ReviewField>)
    ensures ApplyFields(r, a + b) == ApplyFields(ApplyFields(r, a), b)
  {
    if b == [] {
      assert a + b == a;
    } else {
      assert (a + b)[..|a + b| - 1] == a + b[..|b| - 1];
      ApplyFieldsAppend(r, a, b[..|b| - 1]);
    }
  }

  /** `review_update.dict(exclude_unset=True, exclude={'positions', 'interview_questions'})`,
      in the field order of `JobReviewUpdate`: the first three scalars, then the last four. */
  function SetFields(u: ReviewUpdate): seq<ReviewField> {
    HeadFields(u) + TailFields(u)
  }

  function HeadFields(u: ReviewUpdate): seq<ReviewField> {
    (if u.companyName.Some? then [SetCompanyName(u.companyName.value)] else [])
    + (if u.experienceLevel.Some? then [SetExperienceLevel(u.experienceLevel.value)] else [])
    + (if u.interviewDate.Some? then [SetInterviewDate(u.interviewDate.value)] else [])
  }

  function TailFields(u: ReviewUpdate): seq<ReviewField> {
    (if u.overallEvaluation.Some? then [SetOverallEvaluation(u.overallEvaluation.value)] else [])
    + (if u.difficulty.Some? then [SetDifficulty(u.difficulty.value)] else [])
    + (if u.interviewReview.Some? then [SetInterviewReview(u.interviewReview.value)] else [])
    + (if u.finalResult.Some? then [SetFinalResult(u.finalResult.value)] else [])
  }

  function OrElse<T>(o: Option<T>, d: T): T {
    if o.Some? then o.value else d
  }

  /** The reference meaning of an update: every set scalar replaced, every
      other column kept. */
  function Overwritten(r: JobReview, u: ReviewUpdate): JobReview {
    r.(companyName := OrElse(u.companyName, r.companyName),
       experienceLevel := OrElse(u.experienceLevel, r.experienceLevel),
       interviewDate := OrElse(u.interviewDate, r.interviewDate),
       overallEvaluation := OrElse(u.overallEvaluation, r.overallEvaluation),
       difficulty := OrElse(u.difficulty, r.difficulty),
       interviewReview := OrElse(u.interviewReview, r.interviewReview),
       finalResult := OrElse(u.finalResult, r.finalResult))
  }

  /** The `setattr` loop overwrites exactly the scalars the body set. */
  lemma SetFieldsOverwrite(r: JobReview, u: ReviewUpdate)
    ensures ApplyFields(r, SetFields(u)) == Overwritten(r, u)
  {
    var x := r.(companyName := OrElse(u.companyName, r.companyName),
                experienceLevel := OrElse(u.experienceLevel, r.experienceLevel),
                interviewDate := OrElse(u.interviewDate, r.interviewDate));
    HeadFieldsOverwrite(r, u);
    ApplyFieldsAppend(r, HeadFields(u), TailFields(u));
    TailFieldsOverwrite(x, u);
  }

  lemma HeadFieldsOverwrite(r: JobReview, u: ReviewUpdate)
    ensures ApplyFields(r, HeadFields(u)) ==
              r.(companyName := OrElse(u.companyName, r.companyName),
                 experienceLevel := OrElse(u.experienceLevel, r.experienceLevel),
                 interviewDate := OrElse(u.interviewDate, r.interviewDate))
  {
    var f1 := if u.companyName.Some? then [SetCompanyName(u.companyName.value)] else [];
    var f2 := if u.experienceLevel.Some? then [SetExperienceLevel(u.experienceLevel.value)] else [];
    var f3 := if u.interviewDate.Some? then [SetInterviewDate(u.interviewDate.value)] else [];
    var x1 := r.(companyName := OrElse(u.companyName, r.companyName));
    var x2 := x1.(experienceLevel := OrElse(u.experienceLevel, r.experienceLevel));
    var x3 := x2.(interviewDate := OrElse(u.interviewDate, r.interviewDate));
    assert ApplyFields(r, f1) == x1 by {
      assert f1 == [] || f1[..0] == [];
    }
    ApplyFieldsStep(r, f1, f2, x1, x2);
    ApplyFieldsStep(r, f1 + f2, f3, x2, x3);
  }

  lemma TailFieldsOverwrite(r: JobReview, u: ReviewUpdate)
    ensures ApplyFields(r, TailFields(u)) ==
              r.(overallEvaluation := OrElse(u.overallEvaluation, r.overallEvaluation),
                 difficulty := OrElse(u.difficulty, r.difficulty),
                 interviewReview := OrElse(u.interviewReview, r.interviewReview),
                 finalResult := OrElse(u.finalResult, r.finalResult))
  {
    var f4 := if u.overallEvaluation.Some? then [SetOverallEvaluation(u.overallEvaluation.value)] else [];
    var f5 := if u.difficulty.Some? then [SetDifficulty(u.difficulty.value)] else [];
    var f6 := if u.interviewReview.Some? then [SetInterviewReview(u.interviewReview.value)] else [];
    var f7 := if u.finalResult.Some? then [SetFinalResult(u.finalResult.value)] else [];
    var x4 := r.(overallEvaluation := OrElse(u.overallEvaluation, r.overallEvaluation));
    var x5 := x4.(difficulty := OrElse(u.difficulty, r.difficulty));
    var x6 := x5.(interviewReview := OrElse(u.interviewReview, r.interviewReview));
    var x7 := x6.(finalResult := OrElse(u.finalResult, r.finalResult));
    assert ApplyFields(r, f4) == x4 by {
      assert f4 == [] || f4[..0] == [];
    }
    ApplyFieldsStep(r, f4, f5, x4, x5);
    ApplyFieldsStep(r, f4 + f5, f6, x5, x6);
    ApplyFieldsStep(r, f4 + f5 + f6, f7, x6, x7);
  }

  /** One more field of at most one setter, applied after a prefix. */
  lemma ApplyFieldsStep(r: JobReview, a: seq<ReviewField>, b: seq<ReviewField>, before: JobReview, after: JobReview)
    requires ApplyFields(r, a) == before
    requires |b| <= 1
    requires b == [] ==> after == before
    requires |b| == 1 ==> after == ApplyField(before, b[0])
    ensures ApplyFields(r, a + b) == after
  {
    if b == [] {
      assert a + b == a;
    } else {
      assert (a + b)[..|a + b| - 1] == a;
    }
  }

  /** The stored row after an update: `updated_at` moves to `now` only when
      some column actually changed, since only then is an UPDATE issued. */
  function Patched(r: JobReview, fs: seq<ReviewField>, now: DateTime): (x: JobReview)
    ensures x.id == r.id && x.userId == r.userId && x.applicationId == r.applicationId
    ensures x.createdAt == r.createdAt
    ensures fs == [] ==> x == r
  {
    var b := ApplyFields(r, fs);
    if b == r then r else b.(updatedAt := now)
  }

  /** `job_reviews` after `update_job_review`. */
  function ReviewsUpdated(rows: seq<JobReview>, id: int, userId: string, fs: seq<ReviewField>, now: DateTime)
    : (r: seq<JobReview>)
    ensures |r| == |rows|
    ensures forall k :: 0 <= k < |rows| && !(rows[k].id == id && rows[k].userId == userId) ==> r[k] == rows[k]
    ensures !OwnsReview(rows, id, userId) ==> r == rows
    ensures forall k :: 0 <= k < |rows| ==>
              r[k].id == rows[k].id && r[k].userId == rows[k].userId && r[k].applicationId == rows[k].applicationId
    ensures forall k :: 0 <= k < |rows| && rows[k].id == id && rows[k].userId == userId
                        && (forall j :: 0 <= j < k ==> !(rows[j].id == id && rows[j].userId == userId))
                        ==> r[k] == Patched(rows[k], fs, now)
  {
    match FindFirst(rows, OwnedReview(id, userId))
    case None => rows
    case Some(i) => rows[i := Patched(rows[i], fs, now)]
  }

  /** `job_reviews` once the application row `applicationId` is deleted at
      `now`. The `job_review` backref has no delete cascade, so the ORM keeps
      each review that pointed at the application and issues an UPDATE setting
      its `application_id` to NULL; that UPDATE also moves `updated_at` to
      `now` through the column's `onupdate`. */
  function Detached(rows: seq<JobReview>, applicationId: int, now: DateTime): (r: seq<JobReview>)
    ensures |r| == |rows|
    ensures forall k :: 0 <= k < |rows| && rows[k].applicationId == Some(applicationId) ==>
              r[k] == rows[k].(applicationId := None, updatedAt := now)
    ensures forall k :: 0 <= k < |rows| && rows[k].applicationId != Some(applicationId) ==> r[k] == rows[k]
    ensures forall x :: x in r ==> x.applicationId != Some(applicationId)
  {
    seq(|rows|, k requires 0 <= k < |rows| =>
      if rows[k].applicationId == Some(applicationId) then rows[k].(applicationId := None, updatedAt := now)
      else rows[k])
  }

  /** Detaching the reviews of a deleted application keeps the table valid. */
  lemma DetachKeepsReviewsValid(rows: seq<JobReview>, applicationId: int, now: DateTime, nextId: int)
    requires ReviewsValid(rows, nextId)
    ensures ReviewsValid(Detached(rows, applicationId, now), nextId)
  {
    var r := Detached(rows, applicationId, now);
    forall a, b | 0 <= a < b < |r|
      ensures ReviewId(r[a]) != ReviewId(r[b])
    {
      assert ReviewId(rows[a]) != ReviewId(rows[b]);
    }
  }

  /** Appending a review with a fresh id and an application no review holds
      keeps the table valid. */
  lemma AppendKeepsReviewsValid(rows: seq<JobReview>, x: JobReview, nextId: int)
    requires ReviewsValid(rows, nextId) && x.id == nextId
    requires x.applicationId.Some? ==> !Reviewed(rows, x.applicationId.value)
    ensures ReviewsValid(rows + [x], nextId + 1)
  {
    var r := rows + [x];
    forall a, b | 0 <= a < b < |r|
      ensures ReviewId(r[a]) != ReviewId(r[b])
      ensures r[a].applicationId.Some? ==> r[a].applicationId != r[b].applicationId
    {
      assert r[a] == rows[a];
      if b == |rows| {
        assert r[b] == x;
      } else {
        assert r[b] == rows[b];
      }
    }
  }

  /** A review appended with a fresh id is the one `get_job_review` finds. */
  lemma NewReviewIsFound(rows: seq<JobReview>, x: JobReview, nextId: int)
    requires ReviewsValid(rows, nextId) && x.id == nextId
    ensures FindFirst(rows + [x], WithId(x.id)) == Some(|rows|)
  {
    var r := rows + [x];
    assert forall k :: 0 <= k < |rows| ==> r[k] == rows[k] && !WithId(x.id)(r[k]);
    assert WithId(x.id)(r[|rows|]);
  }

  /** Removing one review keeps ids below the next id, distinct, and one per
      application; since ids are distinct, the removed id is then gone. */
  lemma RemoveKeepsReviewsValid(rows: seq<JobReview>, i: nat, nextId: int)
    requires i < |rows| && ReviewsValid(rows, nextId)
    ensures ReviewsValid(RemoveAt(rows, i), nextId)
    ensures forall x :: x in RemoveAt(rows, i) ==> x.id != rows[i].id
  {
    var r := RemoveAt(rows, i);
    forall a, b | 0 <= a < b < |r|
      ensures ReviewId(r[a]) != ReviewId(r[b])
      ensures r[a].applicationId.Some? ==> r[a].applicationId != r[b].applicationId
    {
      var a' := if a < i then a else a + 1;
      var b' := if b < i then b else b + 1;
      assert r[a] == rows[a'] && r[b] == rows[b'] && a' < b';
    }
    forall x | x in r ensures x.id != rows[i].id {
      var k :| 0 <= k < |r| && r[k] == x;
      var k' := if k < i then k else k + 1;
      assert x == rows[k'] && k' != i;
      assert ReviewId(rows[k']) != ReviewId(rows[i]);
    }
  }

  /** Rewriting one review's scalars, its id and application untouched, keeps the table valid. */
  lemma PatchKeepsReviewsValid(rows: seq<JobReview>, i: nat, x: JobReview, nextId: int)
    requires i < |rows| && ReviewsValid(rows, nextId)
    requires x.id == rows[i].id && x.applicationId == rows[i].applicationId
    ensures ReviewsValid(rows[i := x], nextId)
  {
    var r := rows[i := x];
    assert forall k :: 0 <= k < |r| ==> r[k].id == rows[k].id && r[k].applicationId == rows[k].applicationId;
    forall a, b | 0 <= a < b < |r|
      ensures ReviewId(r[a]) != ReviewId(r[b])
    {
      assert ReviewId(rows[a]) != ReviewId(rows[b]);
    }
  }

  function CreatedKey(r: JobReview): int { InstantKey(r.createdAt) }

  function ByAuthor(userId: string): JobReview -> bool {
    (r: JobReview) => r.userId == userId
  }

  /** The rows of one page of `get_user_job_reviews_paginated`. */
  function UserReviews(reviews: seq<JobReview>, userId: string, page: int, pageSize: int): (r: seq<JobReview>)
    requires page >= 1 && pageSize >= 1
    ensures r == Window(NewestOrder(reviews, ByAuthor(userId), CreatedKey), PageOffset(page, pageSize), pageSize)
    ensures var n := |Filter(reviews, ByAuthor(userId))|;
            var skip := PageOffset(page, pageSize);
            |r| == Min(pageSize, if skip <= n then n - skip else 0)
    ensures |r| <= pageSize
    ensures forall x :: x in r ==> x in reviews && x.userId == userId
    ensures forall i, j :: 0 <= i < j < |r| ==> CreatedKey(r[i]) >= CreatedKey(r[j])
    ensures page == 1 && pageSize >= |reviews| ==> multiset(r) == multiset(Filter(reviews, ByAuthor(userId)))
  {
    var skip := PageOffset(page, pageSize);
    assert page == 1 ==> skip == 0;
    NewestFirst(reviews, ByAuthor(userId), CreatedKey, skip, pageSize)
  }

  /** `JobReviewListItem`. */
  datatype ReviewListItem = ReviewListItem(
    id: int, userId: string, applicationId: Option<int>, companyName: string, positions: seq<string>,
    finalResult: FinalResult, interviewDate: Date, createdAt: DateTime)

  function ListItemOf(positions: seq<JobPosition>, r: JobReview): ReviewListItem {
    ReviewListItem(r.id, r.userId, r.applicationId, r.companyName, PositionNames(PositionsOf(positions, r.id)),
                   r.finalResult, r.interviewDate, r.createdAt)
  }

  function ListItems(positions: seq<JobPosition>, rows: seq<JobReview>): seq<ReviewListItem> {
    seq(|rows|, k requires 0 <= k < |rows| => ListItemOf(positions, rows[k]))
  }

  /** `JobReviewListResponse`. */
  datatype ReviewListPage = ReviewListPage(
    totalCount: nat, page: int, pageSize: int, totalPages: nat, reviews: seq<ReviewListItem>)

  /** The filters of `get_public_job_reviews_paginated`. */
  datatype PublicFilters = PublicFilters(
    companyName: Option<string>, sameSchool: bool, sameMajor: bool, experienceLevel: Option<string>,
    overallEvaluation: Option<string>, difficulty: Option<string>, finalResult: Option<string>)

  /** A truthy optional string filter. */
  predicate Given(s: Option<string>) {
    s.Some? && s.value != ""
  }

  /** `column == value` in a SQLAlchemy filter, `value` being a Python
      value: `None` compiles to `IS NULL`; any other value to an equality
      that a NULL column never satisfies. */
  predicate SqlEquals(column: Option<string>, value: Option<string>) {
    if value.None? then column.None? else column == value
  }

  /** `db.query(Education).filter(Education.user_id == user_id).first()`. */
  function EducationOf(educations: seq<Education>, userId: string): (r: Option<Education>)
    ensures r.Some? ==> r.value in educations && r.value.userId == userId
    ensures r.None? <==> forall e :: e in educations ==> e.userId != userId
  {
    match FindFirst(educations, (e: Education) => e.userId == userId)
    case None => None
    case Some(i) => Some(educations[i])
  }

  /** The requester's education row when the same-school/major narrowing
      applies: one of the flags is set and the requester has both a
      PersonalUser and an Education row. */
  function Narrowing(personals: seq<PersonalUser>, educations: seq<Education>, requester: string,
                     f: PublicFilters): (r: Option<Education>)
    ensures r.Some? <==> (f.sameSchool || f.sameMajor) && IsPersonal(personals, requester)
                         && EducationOf(educations, requester).Some?
    ensures r.Some? ==> r == EducationOf(educations, requester)
  {
    if (f.sameSchool || f.sameMajor) && IsPersonal(personals, requester) then EducationOf(educations, requester)
    else None
  }

  /** The author's Education row `e` passes the school and major filters
      built from the requester's row `mine`. */
  predicate BackgroundFits(mine: Education, e: Education, f: PublicFilters) {
    (f.sameSchool ==> SqlEquals(e.schoolName, mine.schoolName))
    && (f.sameMajor ==> SqlEquals(e.major, mine.major))
  }

  /** The inner join with Education on the author and its filters: some
      Education row of the author passes them. */
  predicate SameBackground(mine: Education, educations: seq<Education>, author: string, f: PublicFilters) {
    exists e :: e in educations && e.userId == author && BackgroundFits(mine, e, f)
  }

  /** `user_id` is Education's primary key: at most one row per user. */
  predicate OneEducationPerUser(educations: seq<Education>) {
    forall i, j :: 0 <= i < |educations| && 0 <= j < |educations| && educations[i].userId == educations[j].userId
                   ==> i == j
  }

  /** With the primary key in force, the join meets exactly the author's
      one row, the row the listing later reads with `.first()`. */
  lemma JoinMeetsFirstRow(mine: Education, educations: seq<Education>, author: string, f: PublicFilters)
    requires OneEducationPerUser(educations)
    ensures SameBackground(mine, educations, author, f) <==>
              EducationOf(educations, author).Some? && BackgroundFits(mine, EducationOf(educations, author).value, f)
  {
    if SameBackground(mine, educations, author, f) {
      var e :| e in educations && e.userId == author && BackgroundFits(mine, e, f);
      var first := EducationOf(educations, author).value;
      var i :| 0 <= i < |educations| && educations[i] == e;
      var j :| 0 <= j < |educations| && educations[j] == first;
      assert i == j;
    }
  }

  /** A requester whose school is NULL is matched with authors whose school
      is NULL too: `== None` is `IS NULL`. */
  lemma NullSchoolMatchesNullSchool(mine: Education, e: Education, f: PublicFilters)
    requires f.sameSchool && !f.sameMajor && mine.schoolName.None? && e.schoolName.None?
    ensures BackgroundFits(mine, e, f)
  {
  }

  /** One review passes the public query: its author has a PersonalUser row,
      it is not the requester's, and every given filter holds. `ilike` is
      compared on lower-cased text. */
  predicate PublicMatch(personals: seq<PersonalUser>, educations: seq<Education>, requester: string,
                        f: PublicFilters, r: JobReview) {
    IsPersonal(personals, r.userId)
    && r.userId != requester
    && (Given(f.companyName) ==> Contains(Lower(r.companyName), Lower(f.companyName.value)))
    && (Given(f.experienceLevel) ==> ExperienceLevelName(r.experienceLevel) == f.experienceLevel.value)
    && (Given(f.overallEvaluation) ==> OverallEvaluationName(r.overallEvaluation) == f.overallEvaluation.value)
    && (Given(f.difficulty) ==> DifficultyName(r.difficulty) == f.difficulty.value)
    && (Given(f.finalResult) ==> FinalResultName(r.finalResult) == f.finalResult.value)
    && var mine := Narrowing(personals, educations, requester, f);
       mine.Some? ==> SameBackground(mine.value, educations, r.userId, f)
  }

  function PublicPredicate(personals: seq<PersonalUser>, educations: seq<Education>, requester: string,
                           f: PublicFilters): JobReview -> bool {
    (r: JobReview) => PublicMatch(personals, educations, requester, f, r)
  }

  /** The rows of one page of `get_public_job_reviews_paginated`. */
  function PublicReviews(reviews: seq<JobReview>, personals: seq<PersonalUser>, educations: seq<Education>,
                         requester: string, f: PublicFilters, page: int, pageSize: int): (r: seq<JobReview>)
    requires page >= 1 && pageSize >= 1
    ensures |r| <= pageSize
    ensures forall x :: x in r ==> x in reviews && x.userId != requester && PublicMatch(personals, educations, requester, f, x)
    ensures forall i, j :: 0 <= i < j < |r| ==> CreatedKey(r[i]) >= CreatedKey(r[j])
    ensures var matching := |Filter(reviews, PublicPredicate(personals, educations, requester, f))|;
            var skip := PageOffset(page, pageSize);
            |r| == Min(pageSize, if skip <= matching then matching - skip else 0)
    ensures page == 1 && pageSize >= |reviews| ==>
              multiset(r) == multiset(Filter(reviews, PublicPredicate(personals, educations, requester, f)))
    ensures r == Window(NewestOrder(reviews, PublicPredicate(personals, educations, requester, f), CreatedKey),
                        PageOffset(page, pageSize), pageSize)
  {
    assert page == 1 ==> PageOffset(page, pageSize) == 0;
    NewestFirst(reviews, PublicPredicate(personals, educations, requester, f), CreatedKey,
                PageOffset(page, pageSize), pageSize)
  }

  /** Without the school/major flags, or for a requester lacking a
      PersonalUser or Education row, the narrowing changes nothing. */
  lemma NarrowingNeedsProfile(personals: seq<PersonalUser>, educations: seq<Education>, requester: string,
                              f: PublicFilters, r: JobReview)
    requires !IsPersonal(personals, requester) || EducationOf(educations, requester).None?
    ensures PublicMatch(personals, educations, requester, f, r)
              == PublicMatch(personals, educations, requester, f.(sameSchool := false, sameMajor := false), r)
  {
  }

  /** `PublicJobReviewListItem`. */
  datatype PublicListItem = PublicListItem(
    id: int, companyName: string, positions: seq<string>, experienceLevel: ExperienceLevel,
    overallEvaluation: OverallEvaluation, difficulty: Difficulty, finalResult: FinalResult,
    reviewLength: nat, interviewDate: Date, schoolName: Option<string>, major: Option<string>,
    createdAt: DateTime)

  function PublicItemOf(positions: seq<JobPosition>, educations: seq<Education>, r: JobReview): PublicListItem {
    var edu := EducationOf(educations, r.userId);
    PublicListItem(r.id, r.companyName, PositionNames(PositionsOf(positions, r.id)), r.experienceLevel,
                   r.overallEvaluation, r.difficulty, r.finalResult, |r.interviewReview|, r.interviewDate,
                   if edu.Some? then edu.value.schoolName else None,
                   if edu.Some? then edu.value.major else None,
                   r.createdAt)
  }

  function PublicItems(positions: seq<JobPosition>, educations: seq<Education>, rows: seq<JobReview>)
    : seq<PublicListItem>
  {
    seq(|rows|, k requires 0 <= k < |rows| => PublicItemOf(positions, educations, rows[k]))
  }

  /** `PublicJobReviewListResponse`. */
  datatype PublicListPage = PublicListPage(
    totalCount: nat, page: int, pageSize: int, totalPages: nat, reviews: seq<PublicListItem>)

  /** The statuses `get_completed_applications_without_review` offers. */
  predicate Completed(s: ApplicationStatus) {
    s.DocumentsPassed? || s.DocumentsFailed? || s.TestPassed? || s.TestFailed?
    || s.AssignmentPassed? || s.AssignmentFailed? || s.InterviewPassed? || s.InterviewFailed?
    || s.FinalAccepted? || s.FinalRejected? || s.OfferDeclined?
  }

  function UpdatedKey(a: CompanyApplication): int { InstantKey(a.updatedAt) }

  function OpenForReview(reviews: seq<JobReview>, userId: string): CompanyApplication -> bool {
    (a: CompanyApplication) => a.userId == userId && Completed(a.status) && !Reviewed(reviews, a.id)
  }

  /** `get_completed_applications_without_review`: the user's finished
      applications that no review holds, most recently updated first. */
  function AvailableApplications(apps: seq<CompanyApplication>, reviews: seq<JobReview>, userId: string)
    : (r: seq<CompanyApplication>)
    ensures forall a :: a in r <==> a in apps && a.userId == userId && Completed(a.status) && !Reviewed(reviews, a.id)
    ensures forall i, j :: 0 <= i < j < |r| ==> UpdatedKey(r[i]) >= UpdatedKey(r[j])
    ensures multiset(r) == multiset(Filter(apps, OpenForReview(reviews, userId)))
  {
    AllNewestFirst(apps, OpenForReview(reviews, userId), UpdatedKey)
  }

  /** The three tables behind a job review. */
  class ReviewStore {
    var reviews: seq<JobReview>
    var positions: seq<JobPosition>
    var questions: seq<InterviewQuestion>
    var nextReviewId: int
    var nextPositionId: int
    var nextQuestionId: int

    ghost predicate Valid()
      reads this
    {
      ReviewsValid(reviews, nextReviewId)
      && PositionRowsValid(positions, nextPositionId, nextReviewId)
      && QuestionRowsValid(questions, nextQuestionId, nextReviewId)
    }

    constructor ()
      ensures Valid()
      ensures reviews == [] && positions == [] && questions == []
      ensures nextReviewId == 1 && nextPositionId == 1 && nextQuestionId == 1
    {
      reviews := [];
      positions := [];
      questions := [];
      nextReviewId := 1;
      nextPositionId := 1;
      nextQuestionId := 1;
    }

    /** `get_job_review`. */
    function GetJobReview(id: int): (r: Option<ReviewDetail>)
      reads this
      ensures r.Some? <==> exists k :: 0 <= k < |reviews| && reviews[k].id == id
      ensures r.Some? ==> r.value.review in reviews && r.value.review.id == id
                          && r.value.positions == PositionsOf(positions, id)
                          && r.value.questions == QuestionsOf(questions, id)
    {
      DetailOf(reviews, positions, questions, WithId(id))
    }

    /** `get_job_review_by_application`. */
    function GetJobReviewByApplication(applicationId: int): (r: Option<ReviewDetail>)
      reads this
      ensures r.Some? <==> Reviewed(reviews, applicationId)
      ensures r.Some? ==> r.value.review in reviews && r.value.review.applicationId == Some(applicationId)
    {
      DetailOf(reviews, positions, questions, ForApplication(applicationId))
    }

    /** The position loop of create and update: one row per item, all
        pointing at `reviewId`. */
    method AddPositions(reviewId: int, ps: seq<string>)
      requires PositionRowsValid(positions, nextPositionId, nextReviewId)
      requires reviewId < nextReviewId
      modifies this
      ensures positions == old(positions) + PositionRows(old(nextPositionId), reviewId, ps)
      ensures nextPositionId == old(nextPositionId) + |ps|
      ensures PositionRowsValid(positions, nextPositionId, nextReviewId)
      ensures reviews == old(reviews) && questions == old(questions)
      ensures nextReviewId == old(nextReviewId) && nextQuestionId == old(nextQuestionId)
    {
      var first := nextPositionId;
      for k := 0 to |ps|
        invariant positions == old(positions) + PositionRows(first, reviewId, ps[..k])
        invariant nextPositionId == first + k
        invariant PositionRowsValid(positions, nextPositionId, nextReviewId)
        invariant reviews == old(reviews) && questions == old(questions)
        invariant nextReviewId == old(nextReviewId) && nextQuestionId == old(nextQuestionId)
      {
        assert PositionRows(first, reviewId, ps[..k + 1])
               == PositionRows(first, reviewId, ps[..k]) + [JobPosition(first + k, reviewId, ps[k])];
        positions := positions + [JobPosition(nextPositionId, reviewId, ps[k])];
        nextPositionId := nextPositionId + 1;
      }
      assert ps[..|ps|] == ps;
    }

    /** The question loop of create and update. */
    method AddQuestions(reviewId: int, qs: seq<string>)
      requires QuestionRowsValid(questions, nextQuestionId, nextReviewId)
      requires reviewId < nextReviewId
      modifies this
      ensures questions == old(questions) + QuestionRows(old(nextQuestionId), reviewId, qs)
      ensures nextQuestionId == old(nextQuestionId) + |qs|
      ensures QuestionRowsValid(questions, nextQuestionId, nextReviewId)
      ensures reviews == old(reviews) && positions == old(positions)
      ensures nextReviewId == old(nextReviewId) && nextPositionId == old(nextPositionId)
    {
      var first := nextQuestionId;
      for k := 0 to |qs|
        invariant questions == old(questions) + QuestionRows(first, reviewId, qs[..k])
        invariant nextQuestionId == first + k
        invariant QuestionRowsValid(questions, nextQuestionId, nextReviewId)
        invariant reviews == old(reviews) && positions == old(positions)
        invariant nextReviewId == old(nextReviewId) && nextPositionId == old(nextPositionId)
      {
        assert QuestionRows(first, reviewId, qs[..k + 1])
               == QuestionRows(first, reviewId, qs[..k]) + [InterviewQuestion(first + k, reviewId, qs[k])];
        questions := questions + [InterviewQuestion(nextQuestionId, reviewId, qs[k])];
        nextQuestionId := nextQuestionId + 1;
      }
      assert qs[..|qs|] == qs;
    }

    /** `create_job_review`: the application checks, the insert, then one
        position and one question row per item; the result is the new review
        re-read with its children. */
    method Create(apps: seq<CompanyApplication>, personals: seq<PersonalUser>, userId: string,
                  c: ReviewCreate, now: DateTime)
      returns (r: Result<ReviewDetail, ReviewError>)
      requires Valid()
      modifies this
      ensures Valid()
      ensures r.Err? <==> CreateRefusal(old(reviews), apps, personals, userId, c.applicationId).Some?
      ensures r.Err? ==>
                r.error == CreateRefusal(old(reviews), apps, personals, userId, c.applicationId).value
                && reviews == old(reviews) && positions == old(positions) && questions == old(questions)
                && nextReviewId == old(nextReviewId) && nextPositionId == old(nextPositionId)
                && nextQuestionId == old(nextQuestionId)
      ensures r.Ok? ==>
                var id := old(nextReviewId);
                r.value.review == JobReview(id, userId, c.applicationId, c.companyName, c.experienceLevel,
                                            c.interviewDate, c.overallEvaluation, c.difficulty,
                                            c.interviewReview, c.finalResult, now, now)
                && reviews == old(reviews) + [r.value.review]
                && positions == old(positions) + r.value.positions
                && questions == old(questions) + r.value.questions
                && r.value.positions == PositionRows(old(nextPositionId), id, c.positions)
                && r.value.questions == QuestionRows(old(nextQuestionId), id, c.interviewQuestions)
                && GetJobReview(id) == Some(r.value)
    {
      if Truthy(c.applicationId) {
        var application := FindFirst(apps, (a: CompanyApplication) => a.id == c.applicationId.value && a.userId == userId);
        if application.None? {
          return Err(Invalid(ApplicationNotFound));
        }
        var existing := FindFirst(reviews, ForApplication(c.applicationId.value));
        if existing.Some? {
          return Err(Invalid(ReviewAlreadyWritten));
        }
      }
      if !KeysAccept(reviews, apps, personals, userId, c.applicationId) {
        return Err(ConstraintViolation);
      }
      var d := Insert(userId, c, now);
      r := Ok(d);
    }

    /** The insert of `create_job_review` once its checks have passed. */
    method Insert(userId: string, c: ReviewCreate, now: DateTime) returns (d: ReviewDetail)
      requires Valid()
      requires c.applicationId.Some? ==> !Reviewed(reviews, c.applicationId.value)
      modifies this
      ensures Valid()
      ensures d.review == JobReview(old(nextReviewId), userId, c.applicationId, c.companyName, c.experienceLevel,
                                    c.interviewDate, c.overallEvaluation, c.difficulty,
                                    c.interviewReview, c.finalResult, now, now)
      ensures reviews == old(reviews) + [d.review]
      ensures d.positions == PositionRows(old(nextPositionId), old(nextReviewId), c.positions)
      ensures d.questions == QuestionRows(old(nextQuestionId), old(nextReviewId), c.interviewQuestions)
      ensures positions == old(positions) + d.positions
      ensures questions == old(questions) + d.questions
      ensures GetJobReview(old(nextReviewId)) == Some(d)
    {
      var id := nextReviewId;
      var review := JobReview(id, userId, c.applicationId, c.companyName, c.experienceLevel, c.interviewDate,
                              c.overallEvaluation, c.difficulty, c.interviewReview, c.finalResult, now, now);
      AppendKeepsReviewsValid(reviews, review, nextReviewId);
      NewReviewIsFound(reviews, review, nextReviewId);
      reviews := reviews + [review];
      nextReviewId := nextReviewId + 1;
      ghost var oldPositions := positions;
      ghost var oldQuestions := questions;
      var firstPosition, firstQuestion := nextPositionId, nextQuestionId;
      AddPositions(id, c.positions);
      AddQuestions(id, c.interviewQuestions);
      var added := PositionRows(firstPosition, id, c.positions);
      var addedQuestions := QuestionRows(firstQuestion, id, c.interviewQuestions);
      ChildrenOfAppended(oldPositions, added, PositionParent, id);
      ChildrenOfAppended(oldQuestions, addedQuestions, QuestionParent, id);
      d := ReviewDetail(review, added, addedQuestions);
    }

    /** `get_user_job_reviews_paginated`. */
    method UserReviewsPaginated(userId: string, page: int, pageSize: int) returns (resp: ReviewListPage)
      requires page >= 1 && pageSize >= 1
      ensures resp.totalCount == |Filter(reviews, ByAuthor(userId))|
      ensures resp.totalPages == PageCount(resp.totalCount, pageSize)
      ensures resp.page == page && resp.pageSize == pageSize
      ensures resp.reviews == ListItems(positions, UserReviews(reviews, userId, page, pageSize))
    {
      var rows := UserReviews(reviews, userId, page, pageSize);
      var total := |Filter(reviews, ByAuthor(userId))|;
      ghost var items := ListItems(positions, rows);
      var out: seq<ReviewListItem> := [];
      for i := 0 to |rows|
        invariant out == items[..i]
      {
        PrefixStep(items, i);
        var x := rows[i];
        var names := PositionNames(PositionsOf(positions, x.id));
        out := out + [ReviewListItem(x.id, x.userId, x.applicationId, x.companyName, names, x.finalResult,
                                     x.interviewDate, x.createdAt)];
      }
      assert items[..|rows|] == items;
      resp := ReviewListPage(total, page, pageSize, PageCount(total, pageSize), out);
    }

    /** `get_public_job_reviews_paginated`. */
    method PublicReviewsPaginated(personals: seq<PersonalUser>, educations: seq<Education>, requester: string,
                                  page: int, pageSize: int, f: PublicFilters)
      returns (resp: PublicListPage)
      requires page >= 1 && pageSize >= 1
      ensures resp.totalCount == |Filter(reviews, PublicPredicate(personals, educations, requester, f))|
      ensures resp.totalPages == PageCount(resp.totalCount, pageSize)
      ensures resp.page == page && resp.pageSize == pageSize
      ensures resp.reviews ==
                PublicItems(positions, educations, PublicReviews(reviews, personals, educations, requester, f, page, pageSize))
    {
      var rows := PublicReviews(reviews, personals, educations, requester, f, page, pageSize);
      var total := |Filter(reviews, PublicPredicate(personals, educations, requester, f))|;
      ghost var items := PublicItems(positions, educations, rows);
      var out: seq<PublicListItem> := [];
      for i := 0 to |rows|
        invariant out == items[..i]
      {
        PrefixStep(items, i);
        var x := rows[i];
        var names := PositionNames(PositionsOf(positions, x.id));
        var edu := EducationOf(educations, x.userId);
        var school := if edu.Some? then edu.value.schoolName else None;
        var major := if edu.Some? then edu.value.major else None;
        out := out + [PublicListItem(x.id, x.companyName, names, x.experienceLevel, x.overallEvaluation,
                                     x.difficulty, x.finalResult, |x.interviewReview|, x.interviewDate,
                                     school, major, x.createdAt)];
      }
      assert items[..|rows|] == items;
      resp := PublicListPage(total, page, pageSize, PageCount(total, pageSize), out);
    }

    /** What deleting the application `applicationId` at `now` does to this table. */
    method DetachApplication(applicationId: int, now: DateTime)
      requires Valid()
      modifies this
      ensures Valid()
      ensures reviews == Detached(old(reviews), applicationId, now)
      ensures positions == old(positions) && questions == old(questions)
      ensures nextReviewId == old(nextReviewId) && nextPositionId == old(nextPositionId)
              && nextQuestionId == old(nextQuestionId)
    {
      DetachKeepsReviewsValid(reviews, applicationId, now, nextReviewId);
      reviews := Detached(reviews, applicationId, now);
    }

    /** `update_job_review`: `None` unless the id and the owner both match;
        otherwise the set scalars are written in order, and the positions and
        the questions are each deleted and re-inserted when the body gives them. */
    method Update(id: int, userId: string, u: ReviewUpdate, now: DateTime) returns (r: Option<ReviewDetail>)
      requires Valid()
      modifies this
      ensures Valid() && nextReviewId == old(nextReviewId)
      ensures r.Some? <==> OwnsReview(old(reviews), id, userId)
      ensures reviews == ReviewsUpdated(old(reviews), id, userId, SetFields(u), now)
      ensures r.None? ==> positions == old(positions) && questions == old(questions)
      ensures r.Some? ==>
                positions == (if u.positions.Some?
                              then Filter(old(positions), NotChildOf(PositionParent, id))
                                   + PositionRows(old(nextPositionId), id, u.positions.value)
                              else old(positions))
      ensures r.Some? ==>
                questions == (if u.interviewQuestions.Some?
                              then Filter(old(questions), NotChildOf(QuestionParent, id))
                                   + QuestionRows(old(nextQuestionId), id, u.interviewQuestions.value)
                              else old(questions))
      ensures r.Some? ==> r.value.review in reviews && r.value.review.id == id && r.value.review.userId == userId
      ensures r.Some? ==> var k := FindFirst(old(reviews), OwnedReview(id, userId)).value;
                          r.value.review == Patched(old(reviews)[k], SetFields(u), now)
      ensures r.Some? ==>
                r.value.positions == (if u.positions.Some? then PositionRows(old(nextPositionId), id, u.positions.value)
                                      else PositionsOf(old(positions), id))
      ensures r.Some? ==>
                r.value.questions == (if u.interviewQuestions.Some?
                                      then QuestionRows(old(nextQuestionId), id, u.interviewQuestions.value)
                                      else QuestionsOf(old(questions), id))
    {
      var found := FindFirst(reviews, OwnedReview(id, userId));
      if found.None? {
        return None;
      }
      var i := found.value;
      var fs := SetFields(u);
      var row := ApplyEach(reviews[i], fs);
      if row != reviews[i] {
        row := row.(updatedAt := now);
      }
      PatchKeepsReviewsValid(reviews, i, row, nextReviewId);
      reviews := reviews[i := row];
      if u.positions.Some? {
        ReplacePositions(id, u.positions.value);
      }
      if u.interviewQuestions.Some? {
        ReplaceQuestions(id, u.interviewQuestions.value);
      }
      r := Some(ReviewDetail(row, PositionsOf(positions, id), QuestionsOf(questions, id)));
    }

    /** The `setattr` loop of `update_job_review`. */
    static method ApplyEach(r: JobReview, fs: seq<ReviewField>) returns (x: JobReview)
      ensures x == ApplyFields(r, fs)
    {
      x := r;
      for k := 0 to |fs|
        invariant x == ApplyFields(r, fs[..k])
      {
        assert fs[..k + 1][..k] == fs[..k];
        x := ApplyField(x, fs[k]);
      }
      assert fs[..|fs|] == fs;
    }

    /** `db.query(JobPosition).filter(...).delete()` followed by the position
        loop: the review's old positions go, the new ones are appended. */
    method ReplacePositions(id: int, ps: seq<string>)
      requires PositionRowsValid(positions, nextPositionId, nextReviewId)
      requires id < nextReviewId
      modifies this
      ensures positions == Filter(old(positions), NotChildOf(PositionParent, id))
                           + PositionRows(old(nextPositionId), id, ps)
      ensures PositionsOf(positions, id) == PositionRows(old(nextPositionId), id, ps)
      ensures PositionRowsValid(positions, nextPositionId, nextReviewId)
      ensures reviews == old(reviews) && questions == old(questions)
      ensures nextReviewId == old(nextReviewId) && nextQuestionId == old(nextQuestionId)
    {
      var kept := Filter(positions, NotChildOf(PositionParent, id));
      positions := kept;
      AddPositions(id, ps);
      ChildrenOfAppended(kept, PositionRows(old(nextPositionId), id, ps), PositionParent, id);
    }

    /** The same replacement for the interview questions. */
    method ReplaceQuestions(id: int, qs: seq<string>)
      requires QuestionRowsValid(questions, nextQuestionId, nextReviewId)
      requires id < nextReviewId
      modifies this
      ensures questions == Filter(old(questions), NotChildOf(QuestionParent, id))
                           + QuestionRows(old(nextQuestionId), id, qs)
      ensures QuestionsOf(questions, id) == QuestionRows(old(nextQuestionId), id, qs)
      ensures QuestionRowsValid(questions, nextQuestionId, nextReviewId)
      ensures reviews == old(reviews) && positions == old(positions)
      ensures nextReviewId == old(nextReviewId) && nextPositionId == old(nextPositionId)
    {
      var kept := Filter(questions, NotChildOf(QuestionParent, id));
      questions := kept;
      AddQuestions(id, qs);
      ChildrenOfAppended(kept, QuestionRows(old(nextQuestionId), id, qs), QuestionParent, id);
    }

    /** `delete_job_review`: true exactly when an owned review with that id
        existed; it is then gone together with its positions and questions
        (the `delete-orphan` cascade), and every other row stays. */
    method Delete(id: int, userId: string) returns (ok: bool)
      requires Valid()
      modifies this
      ensures Valid()
      ensures nextReviewId == old(nextReviewId) && nextPositionId == old(nextPositionId)
      ensures nextQuestionId == old(nextQuestionId)
      ensures ok <==> OwnsReview(old(reviews), id, userId)
      ensures reviews == DeleteFirst(old(reviews), OwnedReview(id, userId))
      ensures !ok ==> positions == old(positions) && questions == old(questions)
      ensures ok ==> positions == Filter(old(positions), NotChildOf(PositionParent, id))
      ensures ok ==> questions == Filter(old(questions), NotChildOf(QuestionParent, id))
      ensures ok ==> forall x :: x in reviews ==> x.id != id
    {
      var found := FindFirst(reviews, OwnedReview(id, userId));
      if found.None? {
        return false;
      }
      var i := found.value;
      RemoveKeepsReviewsValid(reviews, i, nextReviewId);
      reviews := RemoveAt(reviews, i);
      positions := Filter(positions, NotChildOf(PositionParent, id));
      questions := Filter(questions, NotChildOf(QuestionParent, id));
      ok := true;
    }
  }
}
