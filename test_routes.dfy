/** The `/test` routes: the points endpoints, and the deterministic part of
    `create_sample_data` (which schedules and which review a sample
    application gets from its status). Instants are seconds on one clock,
    so `timedelta(days = n)` adds `n * Day`. */
module TestRoutes {

  import opened Common
  import opened Models
  import opened Text
  import JobReviewSchema

  const PointsUpdated := "포인트가 성공적으로 업데이트되었습니다."
  const UserNotFound := "사용자를 찾을 수 없습니다."
  const PointsUpdateFailed := "포인트 업데이트 중 오류가 발생했습니다: "

  const Hour := 3600
  const Day := 86400

  /** `str(e)` of a Starlette `HTTPException`: the status, a colon, the detail. */
  function ExceptionText(e: HttpError): (r: string)
    ensures e.status == 404 ==> r == "404: " + e.detail
  {
    IntToString(e.status) + ": " + e.detail
  }

  /** What `POST /test/points` answers for a user missing from `users`:
      "포인트 업데이트 중 오류가 발생했습니다: 404: 사용자를 찾을 수 없습니다." */
  const MissingUserDetail := PointsUpdateFailed + "404: " + UserNotFound

  /** That detail is the handler's prefix followed by `str()` of the 404. */
  lemma MissingUserDetailQuotes404()
    ensures MissingUserDetail == PointsUpdateFailed + ExceptionText(HttpError(404, UserNotFound))
  {
  }

  function HasUserId(userId: string): User -> bool {
    (u: User) => u.userId == userId
  }

  /** `db.query(User).filter(User.user_id == user_id).first()`. */
  function UserIndex(users: seq<User>, userId: string): (r: Option<nat>)
    ensures r.None? <==> forall u :: u in users ==> u.userId != userId
    ensures r.Some? ==> r.value < |users| && users[r.value].userId == userId
    ensures r.Some? ==> forall k :: 0 <= k < r.value ==> users[k].userId != userId
  {
    var r := FindFirst(users, HasUserId(userId));
    assert r.None? ==> forall u :: u in users ==> !HasUserId(userId)(u);
    r
  }

  /** Changing the points of the user's row does not change which row the
      lookup finds. */
  lemma UserIndexAfterPoints(users: seq<User>, userId: string, i: nat, p: int)
    requires UserIndex(users, userId) == Some(i)
    ensures UserIndex(users[i := users[i].(points := p)], userId) == Some(i)
  {
    var s := users[i := users[i].(points := p)];
    var j := UserIndex(s, userId);
    assert s[i].userId == userId;
    if j.Some? && j.value < i {
      assert false;
    }
  }

  /** `max(0, old + change)`: what `user.points += points_change` followed
      by the reset of a negative total leaves. */
  function ClampedPoints(before: int, change: int): (n: int)
    ensures n >= 0 && n >= before + change
    ensures n == before + change || n == 0
  {
    if before + change < 0 then 0 else before + change
  }

  /** Adding a change that does not go below zero is undone by subtracting it. */
  lemma ClampedPointsUndo(before: int, change: int)
    requires before >= 0 && before + change >= 0
    ensures ClampedPoints(ClampedPoints(before, change), -change) == before
  {
  }

  /** A change that drives the total below zero leaves exactly zero, whatever
      the old total was. */
  lemma ClampedPointsFloor(a: int, b: int, change: int)
    requires a + change < 0 && b + change < 0
    ensures ClampedPoints(a, change) == ClampedPoints(b, change) == 0
  {
  }

  /** The body of `POST /test/points`. */
  datatype PointsReport = PointsReport(message: string, userId: string, oldPoints: int,
                                       pointsChange: int, newPoints: int)

  /** The body of `GET /test/points`. */
  datatype CurrentPoints = CurrentPoints(userId: string, name: Option<string>, currentPoints: int)

  /** `get_user_points`: 404 for a user missing from `users`, raised outside
      any `try`. */
  function GetUserPoints(users: seq<User>, userId: string): (r: Result<CurrentPoints, HttpError>)
    ensures r.Err? <==> forall u :: u in users ==> u.userId != userId
    ensures r.Err? ==> r.error == HttpError(404, UserNotFound)
    ensures r.Ok? ==> r.value.userId == userId
                      && exists u :: u in users && u.userId == userId && u.points == r.value.currentPoints
  {
    match UserIndex(users, userId)
    case None => Err(HttpError(404, UserNotFound))
    case Some(i) => Ok(CurrentPoints(userId, users[i].name, users[i].points))
  }

  /** The `users` table as `update_user_points` sees it. */
  class PointsStore {
    var users: seq<User>

    constructor (users: seq<User>)
      ensures this.users == users
    {
      this.users := users;
    }

    /** `update_user_points`. The 404 for a missing user is raised inside the
        `try`, so the generic handler turns it into a 500 whose detail quotes it. */
    method UpdateUserPoints(userId: string, pointsChange: int) returns (r: Result<PointsReport, HttpError>)
      modifies this
      ensures r.Err? <==> UserIndex(old(users), userId).None?
      ensures r.Err? ==> r.error == HttpError(500, MissingUserDetail)
                         && users == old(users)
      ensures r.Ok? ==>
                var i := UserIndex(old(users), userId).value;
                r.value == PointsReport(PointsUpdated, userId, old(users)[i].points, pointsChange,
                                        ClampedPoints(old(users)[i].points, pointsChange))
                && users == old(users)[i := old(users)[i].(points := r.value.newPoints)]
      ensures r.Ok? ==> GetUserPoints(users, userId).Ok?
                        && GetUserPoints(users, userId).value.currentPoints == r.value.newPoints
    {
      var found := UserIndex(users, userId);
      if found.None? {
        var e := HttpError(404, UserNotFound);
        MissingUserDetailQuotes404();
        r := Err(HttpError(500, PointsUpdateFailed + ExceptionText(e)));
        return;
      }
      var i := found.value;
      var user := users[i];
      var oldPoints := user.points;
      user := user.(points := user.points + pointsChange);
      if user.points < 0 {
        user := user.(points := 0);
      }
      UserIndexAfterPoints(users, userId, i, user.points);
      users := users[i := user];
      r := Ok(PointsReport(PointsUpdated, userId, oldPoints, pointsChange, user.points));
    }
  }

  // The sample data: only the deterministic rule from an application's
  // status to its schedules and its review.

  /** The statuses from which the test stage has been reached. */
  predicate ReachedTest(s: ApplicationStatus) {
    s.TestPassed? || s.InterviewCompleted? || s.FinalAccepted? || s.FinalRejected?
  }

  /** The statuses from which the interview stage has been reached. */
  predicate ReachedInterview(s: ApplicationStatus) {
    s.InterviewCompleted? || s.FinalAccepted? || s.FinalRejected?
  }

  predicate IsFinal(s: ApplicationStatus) {
    s.FinalAccepted? || s.FinalRejected?
  }

  /** Every sample schedule, in the order `create_sample_data` plans them. */
  const Timeline: seq<ScheduleType> :=
    [DocumentDeadline, DocumentResultAnnouncement, TestDate, TestResultAnnouncement,
     InterviewDate, InterviewResultAnnouncement]

  /** How many steps of the timeline an application in status `s` gets:
      two per stage reached. */
  function PlanLength(s: ApplicationStatus): (n: nat)
    ensures n == 2 || n == 4 || n == 6
    ensures n <= |Timeline|
  {
    if ReachedInterview(s) then 6 else if ReachedTest(s) then 4 else 2
  }

  /** One entry of `schedules_to_create`. */
  datatype PlannedSchedule = PlannedSchedule(scheduleType: ScheduleType, start: int)

  /** `schedules_to_create`: the two document steps, `extend`ed by the test
      steps and then by the interview steps as the status allows. The plan
      is a prefix of the timeline, one step a week after the application. */
  method PlanSchedules(status: ApplicationStatus, base: int) returns (plan: seq<PlannedSchedule>)
    ensures |plan| == PlanLength(status)
    ensures forall k :: 0 <= k < |plan| ==> plan[k] == PlannedSchedule(Timeline[k], base + 7 * (k + 1) * Day)
  {
    plan := [PlannedSchedule(DocumentDeadline, base + 7 * Day),
             PlannedSchedule(DocumentResultAnnouncement, base + 14 * Day)];
    if ReachedTest(status) {
      plan := plan + [PlannedSchedule(TestDate, base + 21 * Day),
                      PlannedSchedule(TestResultAnnouncement, base + 28 * Day)];
    }
    if ReachedInterview(status) {
      plan := plan + [PlannedSchedule(InterviewDate, base + 35 * Day),
                      PlannedSchedule(InterviewResultAnnouncement, base + 42 * Day)];
    }
  }

  /** The `ApplicationSchedule` rows the sample data inserts. */
  datatype SampleSchedule = SampleSchedule(applicationId: int, scheduleType: ScheduleType,
                                           startDate: int, endDate: int, isCompleted: bool)

  /** The loop over `schedules_to_create`: one row per entry, two hours long,
      completed when it starts before `now`. */
  method CreateSchedules(applicationId: int, plan: seq<PlannedSchedule>, now: int)
    returns (rows: seq<SampleSchedule>)
    ensures |rows| == |plan|
    ensures forall k :: 0 <= k < |rows| ==>
              rows[k] == SampleSchedule(applicationId, plan[k].scheduleType, plan[k].start,
                                        plan[k].start + 2 * Hour, plan[k].start < now)
  {
    rows := [];
    for k := 0 to |plan|
      invariant |rows| == k
      invariant forall j :: 0 <= j < k ==>
                  rows[j] == SampleSchedule(applicationId, plan[j].scheduleType, plan[j].start,
                                            plan[j].start + 2 * Hour, plan[j].start < now)
    {
      rows := rows + [SampleSchedule(applicationId, plan[k].scheduleType, plan[k].start,
                                     plan[k].start + 2 * Hour, plan[k].start < now)];
    }
  }

  /** The schedules of one sample application: two, four or six of the
      timeline's steps, weekly from the application date, each two hours
      long, in increasing order of start. */
  method SampleSchedules(app: CompanyApplication, base: int, now: int) returns (rows: seq<SampleSchedule>)
    ensures |rows| == PlanLength(app.status)
    ensures |rows| >= 4 <==> ReachedTest(app.status)
    ensures |rows| == 6 <==> ReachedInterview(app.status)
    ensures forall k :: 0 <= k < |rows| ==>
              rows[k].applicationId == app.id && rows[k].scheduleType == Timeline[k]
              && rows[k].startDate == base + 7 * (k + 1) * Day
              && rows[k].endDate == rows[k].startDate + 2 * Hour
              && (rows[k].isCompleted <==> rows[k].startDate < now)
    ensures forall j, k :: 0 <= j < k < |rows| ==> rows[j].startDate < rows[k].startDate
  {
    var plan := PlanSchedules(app.status, base);
    rows := CreateSchedules(app.id, plan, now);
  }

  const AcceptedReview := "좋은 경험이었고 면접관들이 친절했습니다. 기술적인 질문도 적절했습니다."
  const RejectedReview := "아쉬운 결과였지만 많은 것을 배웠습니다. 다음에는 더 준비해서 임하겠습니다."

  /** The columns of a sample `JobReview` that do not come from `random`. */
  datatype SampleReview = SampleReview(userId: string, applicationId: int, companyName: string,
                                       interviewReview: string, finalResult: FinalResult)

  /** The sample review of an application: only a final status gets one, and
      only when the coin `wanted` (`random.choice([True, False])`) says so. */
  function SampleReviewFor(app: CompanyApplication, wanted: bool): (r: Option<SampleReview>)
    ensures r.Some? <==> IsFinal(app.status) && wanted
    ensures r.Some? ==> r.value.finalResult == (if app.status.FinalAccepted? then FinalPass else Fail)
    ensures r.Some? ==> r.value.userId == app.userId && r.value.applicationId == app.id
                        && r.value.companyName == app.companyName
    ensures r.Some? ==> StartsWith(r.value.interviewReview, app.companyName + " " + app.position + " 면접 후기입니다. ")
    ensures r.Some? ==> |r.value.interviewReview| >= JobReviewSchema.MinReviewLength
  {
    if IsFinal(app.status) && wanted then
      var head := app.companyName + " " + app.position + " 면접 후기입니다. ";
      var text := head + (if app.status.FinalAccepted? then AcceptedReview else RejectedReview);
      assert text[..|head|] == head;
      Some(SampleReview(app.userId, app.id, app.companyName, text,
                        if app.status.FinalAccepted? then FinalPass else Fail))
    else None
  }

  /** An application that has a sample review also has all six schedules. */
  lemma ReviewedHasFullTimeline(app: CompanyApplication, wanted: bool)
    requires SampleReviewFor(app, wanted).Some?
    ensures PlanLength(app.status) == |Timeline|
  {
  }
}
